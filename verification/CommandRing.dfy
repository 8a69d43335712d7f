/** The single-producer, single-consumer command ring, one load, slot access or store at a
  time, in every interleaving.
 */
module CommandRing {
  const CAPACITY: nat := 128

  /** Where the producer is in `enqueueCommand`. */
  datatype Producer<T> =
    | Waiting
    | LoadedWrite(cmd: T, write: nat)
    | LoadedRead(cmd: T, write: nat, read: nat)
    | FilledSlot(cmd: T, write: nat)

  /** Where the consumer is in `drainCommands`. */
  datatype Consumer = Resting | HasRead(read: nat) | Draining(read: nat, write: nat)

  /** Shared memory, the two threads, and what has been accepted, dropped and applied. */
  datatype Ring<T> = Ring(
    slots: seq<T>, read: nat, write: nat, producer: Producer<T>, consumer: Consumer,
    accepted: seq<T>, dropped: nat, applied: seq<T>)

  /** What happens next: the producer starts a call or goes on, or the consumer does. */
  datatype Move<T> = Call(cmd: T) | Produce | Drain | Consume

  function ProducerStep<T>(s: Ring<T>): Ring<T>
    requires |s.slots| == CAPACITY
  {
    match s.producer
    case Waiting => s
    case LoadedWrite(cmd, w) => s.(producer := LoadedRead(cmd, w, s.read))
    case LoadedRead(cmd, w, r) =>
      if w - r >= CAPACITY then s.(producer := Waiting, dropped := s.dropped + 1)
      else s.(slots := s.slots[w % CAPACITY := cmd], producer := FilledSlot(cmd, w))
    case FilledSlot(cmd, w) => s.(write := w + 1, producer := Waiting, accepted := s.accepted + [cmd])
  }

  function ConsumerStep<T>(s: Ring<T>): Ring<T>
    requires |s.slots| == CAPACITY
  {
    match s.consumer
    case Resting => s
    case HasRead(r) => s.(consumer := Draining(r, s.write))
    case Draining(r, w) =>
      if r < w then s.(applied := s.applied + [s.slots[r % CAPACITY]], consumer := Draining(r + 1, w))
      else s.(read := r, consumer := Resting)
  }

  function Step<T>(s: Ring<T>, m: Move<T>): (q: Ring<T>)
    requires |s.slots| == CAPACITY
    ensures |q.slots| == CAPACITY
  {
    match m
    case Call(cmd) => if s.producer.Waiting? then s.(producer := LoadedWrite(cmd, s.write)) else s
    case Produce => ProducerStep(s)
    case Drain => if s.consumer.Resting? then s.(consumer := HasRead(s.read)) else s
    case Consume => ConsumerStep(s)
  }

  function Run<T>(s: Ring<T>, moves: seq<Move<T>>): (q: Ring<T>)
    requires |s.slots| == CAPACITY
    ensures |q.slots| == CAPACITY
  {
    if moves == [] then s else Step(Run(s, moves[..|moves| - 1]), moves[|moves| - 1])
  }

  ghost predicate Initial<T>(s: Ring<T>) {
    && |s.slots| == CAPACITY && s.read == 0 && s.write == 0 && s.producer.Waiting? && s.consumer.Resting?
    && s.accepted == [] && s.applied == [] && s.dropped == 0
  }

  /** The index up to which commands have been applied. */
  function LocalRead<T>(s: Ring<T>): nat {
    match s.consumer
    case Resting => s.read
    case HasRead(r) => r
    case Draining(r, _) => r
  }

  ghost predicate Inv<T>(s: Ring<T>) {
    && |s.slots| == CAPACITY && |s.accepted| == s.write
    && s.read <= LocalRead(s) <= s.write <= s.read + CAPACITY
    && s.applied == s.accepted[..LocalRead(s)]
    && (forall k | LocalRead(s) <= k < s.write :: s.slots[k % CAPACITY] == s.accepted[k])
    && (match s.producer
        case Waiting => true
        case LoadedWrite(_, w) => w == s.write
        case LoadedRead(_, w, r) => w == s.write && r <= s.read
        case FilledSlot(cmd, w) => w == s.write && w < s.read + CAPACITY && s.slots[w % CAPACITY] == cmd)
    && (match s.consumer
        case Resting => true
        case HasRead(r) => r == s.read
        case Draining(r, w) => r <= w <= s.write)
  }

  /** Different indices less than a capacity apart use different slots. */
  lemma DistinctSlots(k: nat, w: nat)
    requires k < w < k + CAPACITY
    ensures k % CAPACITY != w % CAPACITY
  {
  }

  lemma ProducerKeeps<T>(s: Ring<T>)
    requires Inv(s)
    ensures Inv(ProducerStep(s))
  {
    match s.producer {
      case LoadedRead(cmd, w, r) =>
        if w - r < CAPACITY {
          var q := ProducerStep(s);
          forall k | LocalRead(q) <= k < q.write
            ensures q.slots[k % CAPACITY] == q.accepted[k]
          {
            DistinctSlots(k, w);
          }
        }
      case _ =>
    }
  }

  lemma ConsumerKeeps<T>(s: Ring<T>)
    requires Inv(s)
    ensures Inv(ConsumerStep(s))
  {
    match s.consumer {
      case Draining(r, w) =>
        if r < w {
          assert s.accepted[..r] + [s.accepted[r]] == s.accepted[..r + 1];
        }
      case _ =>
    }
  }

  lemma StepKeeps<T>(s: Ring<T>, m: Move<T>)
    requires Inv(s)
    ensures Inv(Step(s, m))
  {
    ProducerKeeps(s);
    ConsumerKeeps(s);
  }

  lemma StepGrows<T>(s: Ring<T>, m: Move<T>)
    requires Inv(s)
    ensures s.accepted <= Step(s, m).accepted && s.applied <= Step(s, m).applied
  {
  }

  lemma {:induction false} RunKeeps<T>(s: Ring<T>, moves: seq<Move<T>>)
    requires |s.slots| == CAPACITY && Inv(s)
    ensures Inv(Run(s, moves))
  {
    hide Inv, Step;
    if moves != [] {
      RunKeeps(s, moves[..|moves| - 1]);
      StepKeeps(Run(s, moves[..|moves| - 1]), moves[|moves| - 1]);
    }
  }

  /** Main result: in every interleaving the applied commands are a prefix of the accepted
    ones, in order; the indices stay in order and within one capacity; and a slot that is
    about to be applied holds the command accepted under its index. */
  lemma RingIsFifo<T>(s: Ring<T>, moves: seq<Move<T>>)
    requires Initial(s)
    ensures var q := Run(s, moves);
            && q.applied <= q.accepted && |q.applied| == LocalRead(q) && |q.accepted| == q.write
            && q.read <= LocalRead(q) <= q.write <= q.read + CAPACITY
            && forall k | LocalRead(q) <= k < q.write :: q.slots[k % CAPACITY] == q.accepted[k]
  {
    RunKeeps(s, moves);
  }

  /** Nothing is taken back: what was accepted and applied stays so, in every continuation. */
  lemma {:induction false} RunGrows<T>(s: Ring<T>, moves: seq<Move<T>>)
    requires |s.slots| == CAPACITY && Inv(s)
    ensures Inv(Run(s, moves))
    ensures s.accepted <= Run(s, moves).accepted && s.applied <= Run(s, moves).applied
  {
    hide Inv, Step;
    RunKeeps(s, moves);
    if moves != [] {
      RunGrows(s, moves[..|moves| - 1]);
      StepGrows(Run(s, moves[..|moves| - 1]), moves[|moves| - 1]);
    }
  }

  /** Consecutive consumer moves. */
  function Consumes<T>(n: nat): (moves: seq<Move<T>>)
    ensures |moves| == n
  {
    if n == 0 then [] else Consumes<T>(n - 1) + [Consume]
  }

  /** A drain that nothing interrupts ends with everything applied and published. */
  lemma {:induction false} DrainEnds<T>(s: Ring<T>, n: nat)
    requires Inv(s) && s.consumer.HasRead?
    ensures n == s.write - s.read + 2 ==>
              var q := Run(s, Consumes(n)); q.applied == s.accepted && q.consumer.Resting? && q.read == s.write
    ensures 0 < n <= s.write - s.read + 1 ==>
              var q := Run(s, Consumes(n));
              Inv(q) && q == s.(consumer := Draining(s.read + n - 1, s.write), applied := s.accepted[..s.read + n - 1])
  {
    if n > 0 {
      assert Consumes<T>(n)[..n - 1] == Consumes<T>(n - 1);
      if n > 1 && n <= s.write - s.read + 2 {
        DrainEnds(s, n - 1);
        ConsumerKeeps(Run(s, Consumes(n - 1)));
      }
    }
  }

  /** The drain that has loaded write index `w` is under way, or has applied as much. */
  ghost predicate DrainsTo<T>(s: Ring<T>, w: nat) {
    (s.consumer.Draining? && s.consumer.write == w) || w <= |s.applied|
  }

  lemma DrainGoesOn<T>(s: Ring<T>, m: Move<T>, w: nat)
    requires Inv(s) && DrainsTo(s, w)
    ensures DrainsTo(Step(s, m), w)
  {
  }

  lemma {:induction false} DrainRuns<T>(s: Ring<T>, moves: seq<Move<T>>, w: nat)
    requires |s.slots| == CAPACITY && Inv(s) && DrainsTo(s, w)
    ensures DrainsTo(Run(s, moves), w)
  {
    hide Inv, Step, DrainsTo;
    if moves != [] {
      RunKeeps(s, moves[..|moves| - 1]);
      DrainRuns(s, moves[..|moves| - 1], w);
      DrainGoesOn(Run(s, moves[..|moves| - 1]), moves[|moves| - 1], w);
    }
  }

  /** Main result: whatever the producer does meanwhile, when a drain is over it has applied
    everything that had been accepted when it loaded the write index. */
  lemma DrainIsComplete<T>(s: Ring<T>, moves: seq<Move<T>>)
    requires Inv(s) && s.consumer.HasRead? && Run(ConsumerStep(s), moves).consumer.Resting?
    ensures s.accepted <= Run(ConsumerStep(s), moves).applied
  {
    hide Run;
    var q := ConsumerStep(s);
    ConsumerKeeps(s);
    DrainRuns(q, moves, s.write);
    RunGrows(q, moves);
    RunKeeps(q, moves);
  }

  /** After `k` of the moves the ring was full, and nothing has been accepted since. */
  ghost predicate WasFull<T>(s: Ring<T>, moves: seq<Move<T>>, k: nat)
    requires |s.slots| == CAPACITY && k <= |moves|
  {
    var was, now := Run(s, moves[..k]), Run(s, moves);
    was.write == was.read + CAPACITY && was.accepted == now.accepted
  }

  /** While the producer has a read index in hand, it is one that was published when it was
    loaded, and the producer has accepted nothing since. */
  ghost predicate LoadedAt<T>(s: Ring<T>, moves: seq<Move<T>>, k: nat)
    requires |s.slots| == CAPACITY && k <= |moves|
  {
    var was, now := Run(s, moves[..k]), Run(s, moves);
    now.producer.LoadedRead? ==> was.read == now.producer.read && was.write == now.write && was.accepted == now.accepted
  }

  lemma {:induction false} LoadedSometime<T>(s: Ring<T>, moves: seq<Move<T>>) returns (k: nat)
    requires Initial(s)
    ensures k <= |moves| && LoadedAt(s, moves, k)
  {
    hide Inv;
    k := |moves|;
    assert moves[..k] == moves;
    if moves != [] {
      var front := moves[..|moves| - 1];
      var before := LoadedSometime(s, front);
      InitialInv(s);
      RunKeeps(s, front);
      AcceptedIsWrite(Run(s, front));
      if Run(s, front).producer.LoadedRead? {
        k := before;
        assert moves[..k] == front[..k];
      } else {
        k := |front|;
      }
    }
  }

  lemma InitialInv<T>(s: Ring<T>)
    requires Initial(s)
    ensures Inv(s)
  {
  }

  lemma AcceptedIsWrite<T>(s: Ring<T>)
    requires Inv(s)
    ensures |s.accepted| == s.write && s.write <= s.read + CAPACITY
    ensures s.producer.LoadedWrite? ==> s.producer.write == s.write
    ensures s.producer.LoadedRead? ==> s.producer.write == s.write
  {
  }

  /** Main result: in every interleaving a command is dropped only if at some earlier moment a
    whole capacity of accepted commands was not yet published as read, and no command has
    been accepted since. */
  lemma DroppedMeansFull<T>(s: Ring<T>, moves: seq<Move<T>>) returns (k: nat)
    requires Initial(s) && ProducerStep(Run(s, moves)).dropped > Run(s, moves).dropped
    ensures k <= |moves| && WasFull(s, moves, k)
  {
    hide Inv, Run;
    k := LoadedSometime(s, moves);
    InitialInv(s);
    RunKeeps(s, moves);
    RunKeeps(s, moves[..k]);
    AcceptedIsWrite(Run(s, moves));
    AcceptedIsWrite(Run(s, moves[..k]));
  }
}
