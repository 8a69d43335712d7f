/** The worker pool: every interleaving of enqueuing, shutting down, taking jobs and
  finishing them, one critical section at a time.
 */
module WorkerPool {
  /** A running job is known by its place in the order of acceptance. */
  datatype Worker<J> = Waiting | Running(ticket: nat, job: J) | Exited

  /** The queue, the limit (0 for none), the flag and the workers; and the jobs accepted so
    far, how many have been started, and the tickets of those that have finished. */
  datatype Pool<J> = Pool(
    jobs: seq<J>, limit: nat, shutdown: bool, workers: seq<Worker<J>>,
    accepted: seq<J>, started: nat, finished: set<nat>)

  datatype Move<J> = Enqueue(job: J) | Shutdown | Wake(worker: nat) | Finish(worker: nat)

  /** `enqueue` */
  function Enqueued<J>(p: Pool<J>, job: J): Pool<J> {
    if p.limit > 0 && |p.jobs| >= p.limit then p
    else p.(jobs := p.jobs + [job], accepted := p.accepted + [job])
  }

  /** A worker that waits and gets the lock: it leaves, takes the oldest job, or waits on. */
  function Woken<J>(p: Pool<J>, w: nat): (q: Pool<J>)
    requires w < |p.workers|
    ensures |q.workers| == |p.workers|
  {
    if p.jobs == [] then (if p.shutdown then p.(workers := p.workers[w := Exited]) else p)
    else p.(jobs := p.jobs[1..], started := p.started + 1, workers := p.workers[w := Running(p.started, p.jobs[0])])
  }

  function Finished<J>(p: Pool<J>, w: nat): (q: Pool<J>)
    requires w < |p.workers| && p.workers[w].Running?
    ensures |q.workers| == |p.workers|
  {
    p.(workers := p.workers[w := Waiting], finished := p.finished + {p.workers[w].ticket})
  }

  function Step<J>(p: Pool<J>, m: Move<J>): (q: Pool<J>)
    ensures |q.workers| == |p.workers|
  {
    match m
    case Enqueue(job) => Enqueued(p, job)
    case Shutdown => p.(shutdown := true)
    case Wake(w) => if w < |p.workers| && p.workers[w].Waiting? then Woken(p, w) else p
    case Finish(w) => if w < |p.workers| && p.workers[w].Running? then Finished(p, w) else p
  }

  function Run<J>(p: Pool<J>, moves: seq<Move<J>>): (q: Pool<J>)
    ensures |q.workers| == |p.workers|
  {
    if moves == [] then p else Step(Run(p, moves[..|moves| - 1]), moves[|moves| - 1])
  }

  /** A new pool with `n` workers. */
  function Fresh<J>(n: nat, limit: nat): Pool<J> {
    Pool([], limit, false, seq(n, _ => Waiting), [], 0, {})
  }

  /** Worker `w` has the job with this ticket. */
  predicate Holds<J>(p: Pool<J>, w: nat, ticket: nat) {
    w < |p.workers| && p.workers[w].Running? && p.workers[w].ticket == ticket
  }

  /** Someone has the job with this ticket. */
  ghost predicate InHand<J>(p: Pool<J>, ticket: nat) { exists w :: Holds(p, w, ticket) }

  ghost predicate Inv<J>(p: Pool<J>) {
    && p.started <= |p.accepted| && p.jobs == p.accepted[p.started..]
    && (p.limit > 0 ==> |p.jobs| <= p.limit)
    && (forall w | 0 <= w < |p.workers| && p.workers[w].Running? ::
          var t := p.workers[w].ticket; t < p.started && p.workers[w].job == p.accepted[t] && t !in p.finished)
    && (forall v: nat, w: nat, t: nat | Holds(p, v, t) && Holds(p, w, t) :: v == w)
    && (forall t: nat | t < p.started :: t in p.finished || InHand(p, t))
    && (forall t | t in p.finished :: t < p.started)
  }

  lemma EnqueueKeeps<J>(p: Pool<J>, job: J)
    requires Inv(p)
    ensures Inv(Enqueued(p, job))
  {
    var q := Enqueued(p, job);
    forall t: nat | t < p.started && t !in p.finished
      ensures InHand(q, t)
    {
      var w :| Holds(p, w, t);
      assert Holds(q, w, t);
    }
    assert forall w: nat, t: nat :: Holds(q, w, t) == Holds(p, w, t);
  }

  lemma WakeKeeps<J>(p: Pool<J>, w: nat)
    requires Inv(p) && w < |p.workers| && p.workers[w].Waiting?
    ensures Inv(Woken(p, w))
  {
    var q := Woken(p, w);
    assert forall v: nat, t: nat | v != w :: Holds(q, v, t) == Holds(p, v, t);
    if p.jobs != [] {
      assert Holds(q, w, p.started);
    }
    forall t: nat | t < p.started && t !in p.finished
      ensures InHand(q, t)
    {
      var v :| Holds(p, v, t);
      assert Holds(q, v, t);
    }
  }

  lemma FinishKeeps<J>(p: Pool<J>, w: nat)
    requires Inv(p) && w < |p.workers| && p.workers[w].Running?
    ensures Inv(Finished(p, w))
  {
    var q := Finished(p, w);
    assert forall v | 0 <= v < |p.workers| && p.workers[v].Running? :: Holds(p, v, p.workers[v].ticket);
    assert forall v: nat, t: nat | v != w :: Holds(q, v, t) == Holds(p, v, t);
    forall t: nat | t < p.started && t !in q.finished
      ensures InHand(q, t)
    {
      var v :| Holds(p, v, t);
      assert Holds(q, v, t);
    }
  }

  lemma ShutdownKeeps<J>(p: Pool<J>)
    requires Inv(p)
    ensures Inv(p.(shutdown := true))
  {
    var q := p.(shutdown := true);
    assert forall w: nat, t: nat :: Holds(q, w, t) == Holds(p, w, t);
    forall t: nat | t < p.started && t !in p.finished
      ensures InHand(q, t)
    {
      var v :| Holds(p, v, t);
      assert Holds(q, v, t);
    }
  }

  lemma StepKeeps<J>(p: Pool<J>, m: Move<J>)
    requires Inv(p)
    ensures Inv(Step(p, m))
  {
    hide Inv;
    match m
    case Enqueue(job) => EnqueueKeeps(p, job);
    case Shutdown => ShutdownKeeps(p);
    case Wake(w) => if w < |p.workers| && p.workers[w].Waiting? { WakeKeeps(p, w); }
    case Finish(w) => if w < |p.workers| && p.workers[w].Running? { FinishKeeps(p, w); }
  }

  lemma {:induction false} RunKeeps<J>(p: Pool<J>, moves: seq<Move<J>>)
    requires Inv(p)
    ensures Inv(Run(p, moves))
  {
    hide Inv, Step;
    if moves != [] {
      RunKeeps(p, moves[..|moves| - 1]);
      StepKeeps(Run(p, moves[..|moves| - 1]), moves[|moves| - 1]);
    }
  }

  /** Main result: in every interleaving the accepted jobs are the started ones followed by the
    queue, in the order of acceptance; every started job is either finished or in the hands
    of exactly one worker, never both; and a positive limit is never exceeded. */
  lemma JobsAreConserved<J>(n: nat, limit: nat, moves: seq<Move<J>>)
    ensures var q := Run(Fresh(n, limit), moves);
            && q.started <= |q.accepted| && q.accepted == q.accepted[..q.started] + q.jobs
            && (forall t: nat | t < q.started :: t in q.finished <==> !InHand(q, t))
            && (forall v: nat, w: nat, t: nat | Holds(q, v, t) && Holds(q, w, t) :: v == w)
            && (forall w: nat, t: nat | Holds(q, w, t) :: t < q.started && q.workers[w].job == q.accepted[t])
            && (q.limit > 0 ==> |q.jobs| <= q.limit)
  {
    hide Run, Step;
    RunKeeps(Fresh<J>(n, limit), moves);
  }

  // ------------------------------------------------------------------ shutdown

  /** Nothing is enqueued after the first shutdown. */
  ghost predicate QuietAfterShutdown<J>(moves: seq<Move<J>>) {
    forall i, j | 0 <= i < j < |moves| && moves[i].Shutdown? :: !moves[j].Enqueue?
  }

  /** Once a worker has left, the flag is set, and the queue is empty and stays so. */
  ghost predicate LeftMeansEmpty<J>(p: Pool<J>) {
    forall w | 0 <= w < |p.workers| && p.workers[w].Exited? :: p.shutdown && p.jobs == []
  }

  lemma {:induction false} FlagIsSet<J>(p: Pool<J>, moves: seq<Move<J>>)
    requires !p.shutdown
    ensures Run(p, moves).shutdown ==> exists i | 0 <= i < |moves| :: moves[i].Shutdown?
  {
    if moves != [] {
      var k := |moves| - 1;
      FlagIsSet(p, moves[..k]);
      if Run(p, moves[..k]).shutdown {
        var i :| 0 <= i < k && moves[..k][i].Shutdown?;
        assert moves[i].Shutdown?;
      } else if Run(p, moves).shutdown {
        assert moves[k].Shutdown?;
      }
    }
  }

  lemma LeftStep<J>(p: Pool<J>, m: Move<J>)
    requires LeftMeansEmpty(p) && (p.shutdown ==> !m.Enqueue?)
    ensures LeftMeansEmpty(Step(p, m))
  {
  }

  lemma {:induction false} QuietRun<J>(p: Pool<J>, moves: seq<Move<J>>)
    requires LeftMeansEmpty(p) && !p.shutdown && QuietAfterShutdown(moves)
    ensures LeftMeansEmpty(Run(p, moves))
  {
    hide LeftMeansEmpty, Step;
    if moves != [] {
      var k := |moves| - 1;
      assert forall i | 0 <= i < k :: moves[i] == moves[..k][i];
      QuietRun(p, moves[..k]);
      FlagIsSet(p, moves[..k]);
      LeftStep(Run(p, moves[..k]), moves[k]);
    }
  }

  /** Main result: if nothing is enqueued after shutdown, then once all workers, of which there
    is at least one, have left, every accepted job has run. */
  lemma ShutdownRunsAll<J>(n: nat, limit: nat, moves: seq<Move<J>>)
    requires QuietAfterShutdown(moves) && n > 0
    requires forall w | 0 <= w < n :: Run(Fresh(n, limit), moves).workers[w].Exited?
    ensures var q := Run(Fresh(n, limit), moves);
            q.started == |q.accepted| && forall t: nat :: t in q.finished <==> t < |q.accepted|
  {
    hide Run, Step;
    var p := Fresh<J>(n, limit);
    var q := Run(p, moves);
    QuietRun(p, moves);
    RunKeeps(p, moves);
    assert q.workers[0].Exited?;
    assert forall t: nat :: !InHand(q, t);
  }

  // ------------------------------------------------------ after the last exit

  ghost predicate AllLeft<J>(p: Pool<J>) { forall w | 0 <= w < |p.workers| :: p.workers[w].Exited? }

  /** Once all workers have left, no job is started or finished any more, whatever happens;
    jobs can only be accepted. */
  lemma {:induction false} NothingRunsAfter<J>(p: Pool<J>, moves: seq<Move<J>>)
    requires AllLeft(p)
    ensures var q := Run(p, moves);
            AllLeft(q) && q.started == p.started && q.finished == p.finished && p.accepted <= q.accepted
  {
    if moves != [] {
      NothingRunsAfter(p, moves[..|moves| - 1]);
    }
  }

  lemma {:induction false} RunAdd<J>(p: Pool<J>, a: seq<Move<J>>, b: seq<Move<J>>)
    ensures Run(p, a + b) == Run(Run(p, a), b)
    decreases |b|
  {
    if b == [] {
      assert a + b == a;
    } else {
      RunAdd(p, a, b[..|b| - 1]);
      assert (a + b)[..|a + b| - 1] == a + b[..|b| - 1];
    }
  }

  /** The last worker leaves an empty queue behind. */
  lemma LastExit<J>(p: Pool<J>, m: Move<J>)
    requires !AllLeft(p) && AllLeft(Step(p, m))
    ensures Step(p, m).jobs == []
  {
    var w :| 0 <= w < |p.workers| && !p.workers[w].Exited?;
    assert Step(p, m).workers[w].Exited?;
  }

  /** Every accepted job has been started, and those are the ones that have finished. */
  ghost predicate AllDone<J>(p: Pool<J>) {
    p.started == |p.accepted| && forall t: nat :: t in p.finished <==> t < |p.accepted|
  }

  ghost predicate NoOffers<J>(moves: seq<Move<J>>) { forall i | 0 <= i < |moves| :: !moves[i].Enqueue? }

  lemma OffersInParts<J>(moves: seq<Move<J>>)
    requires moves != []
    ensures var k := |moves| - 1; NoOffers(moves) <==> NoOffers(moves[..k]) && !moves[k].Enqueue?
  {
    var k := |moves| - 1;
    assert forall i | 0 <= i < k :: moves[i] == moves[..k][i];
  }

  /** With all workers gone, only an offer changes the queue. */
  lemma OneOffer<J>(p: Pool<J>, m: Move<J>)
    requires AllLeft(p)
    ensures |p.accepted| <= |Step(p, m).accepted|
    ensures !m.Enqueue? ==> Step(p, m).accepted == p.accepted && Step(p, m).jobs == p.jobs
    ensures m.Enqueue? && p.jobs == [] ==> |Step(p, m).accepted| > |p.accepted|
  {
  }

  /** To an empty queue the next offer is accepted. */
  lemma {:induction false} OnlyOffersAreAccepted<J>(p: Pool<J>, moves: seq<Move<J>>)
    requires p.jobs == [] && AllLeft(p)
    ensures var q := Run(p, moves);
            if NoOffers(moves) then q.accepted == p.accepted && q.jobs == [] else |q.accepted| > |p.accepted|
  {
    hide Step, AllLeft, NoOffers;
    if moves != [] {
      var k := |moves| - 1;
      OffersInParts(moves);
      OnlyOffersAreAccepted(p, moves[..k]);
      NothingRunsAfter(p, moves[..k]);
      OneOffer(Run(p, moves[..k]), moves[k]);
    } else {
      assert NoOffers(moves) by { NoMovesNoOffers<J>(); }
    }
  }

  lemma NoMovesNoOffers<J>()
    ensures NoOffers<J>([])
  {
  }

  /** Main result: when all workers have left, every accepted job has run if and only if none
    has been offered since the last of them left. */
  lemma AllRunIffNoneLate<J>(n: nat, limit: nat, before: seq<Move<J>>, last: Move<J>, later: seq<Move<J>>)
    requires !AllLeft(Run(Fresh(n, limit), before)) && AllLeft(Run(Fresh(n, limit), before + [last]))
    ensures var left, end := Run(Fresh(n, limit), before + [last]), Run(Fresh(n, limit), before + [last] + later);
            && AllDone(left) && AllLeft(end)
            && (AllDone(end) <==> NoOffers(later)) && (AllDone(end) <==> end.accepted == left.accepted)
  {
    hide Run, Step;
    var f := Fresh<J>(n, limit);
    var left, end := Run(f, before + [last]), Run(f, before + [last] + later);
    RunIsStep(f, before, last);
    LastExit(Run(f, before), last);
    RunKeeps(f, before + [last]);
    RunKeeps(f, before + [last] + later);
    RunAdd(f, before + [last], later);
    NothingRunsAfter(left, later);
    OnlyOffersAreAccepted(left, later);
    assert forall t: nat :: !InHand(left, t);
  }

  lemma RunIsStep<J>(p: Pool<J>, moves: seq<Move<J>>, m: Move<J>)
    ensures Run(p, moves + [m]) == Step(Run(p, moves), m)
  {
    assert (moves + [m])[..|moves|] == moves;
  }

  /** Such a job can be had: one worker, shut down and gone, and then a job. */
  lemma LateJobIsStranded<J>(job: J, later: seq<Move<J>>)
    ensures var moves: seq<Move<J>> := [Shutdown, Wake(0), Enqueue(job)];
            var end := Run(Fresh(1, 0), moves + later);
            AllLeft(end) && [job] <= end.accepted && end.started == 0 && end.finished == {}
  {
    var p, moves := Fresh<J>(1, 0), [Shutdown, Wake(0), Enqueue(job)];
    assert moves[..2][..1][..0] == [];
    assert Run(p, moves[..2][..1]) == Step(p, Shutdown);
    assert Run(p, moves[..2]) == Step(Step(p, Shutdown), Wake(0));
    NothingRunsAfter(Run(p, moves), later);
    RunAdd(p, moves, later);
  }

  // --------------------------------------------------------- offers and endings

  /** An offer is refused only when a positive limit is reached; otherwise the job is last in
    the queue. */
  lemma OfferRefusedIff<J>(p: Pool<J>, job: J)
    ensures var q := Step(p, Enqueue(job));
            if p.limit > 0 && |p.jobs| >= p.limit then q == p
            else q.accepted == p.accepted + [job] && q.jobs == p.jobs + [job] && q.workers == p.workers
  {
  }

  function Rank<J>(w: Worker<J>): nat { match w case Running(_, _) => 2 case Waiting => 1 case Exited => 0 }

  /** How far the workers are from having left. */
  function Ranks<J>(workers: seq<Worker<J>>): nat {
    if workers == [] then 0 else Ranks(workers[..|workers| - 1]) + Rank(workers[|workers| - 1])
  }

  lemma {:induction false} RanksUpdate<J>(workers: seq<Worker<J>>, w: nat, v: Worker<J>)
    requires w < |workers|
    ensures Ranks(workers[w := v]) == Ranks(workers) - Rank(workers[w]) + Rank(v)
  {
    var k := |workers| - 1;
    if w < k {
      RanksUpdate(workers[..k], w, v);
      assert workers[w := v][..k] == workers[..k][w := v];
    } else {
      assert workers[w := v][..k] == workers[..k];
    }
  }

  /** What a worker that has not left can do next once the flag is set. */
  function Onward<J>(p: Pool<J>, w: nat): (m: Move<J>)
    requires w < |p.workers|
  {
    if p.workers[w].Running? then Finish(w) else Wake(w)
  }

  /** It starts a job, or comes nearer to the end. */
  lemma OnwardGoesOn<J>(p: Pool<J>, w: nat)
    requires w < |p.workers| && !p.workers[w].Exited? && p.shutdown
    ensures var q := Step(p, Onward(p, w));
            && q.shutdown && q.accepted == p.accepted
            && (|q.jobs| < |p.jobs| || (q.jobs == p.jobs && Ranks(q.workers) < Ranks(p.workers)))
            && (AllLeft(q) ==> q.jobs == [])
  {
    var q := Step(p, Onward(p, w));
    RanksUpdate(p.workers, w, q.workers[w]);
    assert q.workers == p.workers[w := q.workers[w]];
    assert !AllLeft(q) || q.workers[w].Exited?;
  }

  /** Main result: a pool that has been shut down can always end: from every state in which some
    worker has not left there are moves without offers after which all have left and every
    accepted job has run. */
  lemma {:induction false} CanEnd<J>(p: Pool<J>) returns (moves: seq<Move<J>>)
    requires Inv(p) && p.shutdown && !AllLeft(p)
    ensures NoOffers(moves) && AllLeft(Run(p, moves)) && AllDone(Run(p, moves))
    ensures Run(p, moves).accepted == p.accepted
    decreases |p.jobs|, Ranks(p.workers)
  {
    hide Inv, Step;
    var w :| 0 <= w < |p.workers| && !p.workers[w].Exited?;
    var m := Onward(p, w);
    OnwardGoesOn(p, w);
    StepKeeps(p, m);
    OneMove(p, m);
    if AllLeft(Step(p, m)) {
      moves := [m];
      EndedIsDone(Step(p, m));
    } else {
      var rest := CanEnd(Step(p, m));
      moves := [m] + rest;
      RunAdd(p, [m], rest);
    }
  }

  lemma OneMove<J>(p: Pool<J>, m: Move<J>)
    ensures Run(p, [m]) == Step(p, m)
  {
    assert [m][..0] == [];
  }

  lemma EndedIsDone<J>(p: Pool<J>)
    requires Inv(p) && AllLeft(p) && p.jobs == []
    ensures AllDone(p)
  {
    assert forall t: nat :: !InHand(p, t);
  }
}
