/** Who may close the client's socket: threads calling `send`, with nested redirects on the
  same thread, and `stop`, one critical section at a time.
 */
module ClientSocket {
  type Thread = nat

  /** A call of the thread that holds the request mutex: in `send`, or in `send_` with its
    request marked as in flight. */
  datatype Frame = Sending | InFlight

  /** The socket, the bookkeeping under the socket mutex, and the recursive request mutex
    with the calls of its owner, the innermost last. */
  datatype Client = Client(
    open: bool, inFlight: int, from: nat, hasFrom: bool, closeWhenDone: bool,
    owner: nat, frames: seq<Frame>)
  {
    /** Calls of `send_` that have marked a request. */
    function Live(): nat { Count(frames) }

    predicate Top(f: Frame) { frames != [] && frames[|frames| - 1] == f }

    /** What `close_socket` and `shutdown_ssl` assert of the thread that calls them. */
    predicate MayClose(t: Thread) { inFlight == 0 || (hasFrom && from == t) }

    predicate Owns(t: Thread) { frames != [] && owner == t }
  }

  function Count(frames: seq<Frame>): nat {
    if frames == [] then 0
    else Count(frames[..|frames| - 1]) + (if frames[|frames| - 1].InFlight? then 1 else 0)
  }

  datatype Move =
    | Enter                                     // `send` takes the request mutex
    | Begin(alive: bool, connects: bool)        // the first block of `send_`
    | CloseInResponse                           // the response asks for a close
    | End(close: bool)                          // the end of `send_`
    | Leave                                     // `send` gives the request mutex back
    | Stop                                      // `stop`, which takes no request mutex

  function Push(s: Client, f: Frame): Client { s.(frames := s.frames + [f]) }

  function Pop(s: Client): Client
    requires s.frames != []
  {
    s.(frames := s.frames[..|s.frames| - 1])
  }

  /** May thread `t` make this move?  Nested calls of `send` come from a request in flight. */
  predicate Allowed(s: Client, t: Thread, m: Move) {
    match m
    case Enter => s.frames == [] || (s.owner == t && s.Top(InFlight))
    case Begin(_, _) => s.Owns(t) && s.Top(Sending)
    case CloseInResponse => s.Owns(t) && s.Top(InFlight)
    case End(_) => s.Owns(t) && s.Top(InFlight)
    case Leave => s.Owns(t) && s.Top(Sending)
    case Stop => true
  }

  /** The first block: forget an earlier `stop`, drop a dead socket, connect, mark. */
  function Begun(s: Client, t: Thread, alive: bool, connects: bool): Client {
    var a := s.(closeWhenDone := false, open := s.open && alive);
    if !a.open && !connects then a
    else Push(a.(open := true, inFlight := a.inFlight + 1, from := t, hasFrom := true), InFlight)
  }

  /** The last block: unmark, and close if asked to. */
  function Ended(s: Client, close: bool): Client
    requires s.frames != []
  {
    var n := s.inFlight - 1;
    var a := s.(inFlight := n, hasFrom := s.hasFrom && n > 0);
    Pop(a.(open := a.open && !(a.closeWhenDone || close)))
  }

  function Step(s: Client, t: Thread, m: Move): Client
    requires Allowed(s, t, m)
  {
    match m
    case Enter => Push(s, Sending).(owner := t)
    case Begin(alive, connects) => Begun(s, t, alive, connects)
    case CloseInResponse => s.(open := false)
    case End(close) => Ended(s, close)
    case Leave => Pop(s)
    case Stop => if s.inFlight > 0 then s.(closeWhenDone := true) else s.(open := false)
  }

  /** The threads' moves in the order of their critical sections. */
  type Schedule = seq<(Thread, Move)>

  ghost predicate Possible(s: Client, moves: Schedule)
    decreases |moves|
  {
    moves == [] || (Allowed(s, moves[0].0, moves[0].1) && Possible(Step(s, moves[0].0, moves[0].1), moves[1..]))
  }

  function Run(s: Client, moves: Schedule): Client
    requires Possible(s, moves)
    decreases |moves|
  {
    if moves == [] then s else Run(Step(s, moves[0].0, moves[0].1), moves[1..])
  }

  const NEW := Client(false, 0, 0, false, false, 0, [])

  ghost predicate Inv(s: Client) {
    && s.inFlight == s.Live()
    && (s.inFlight > 0 <==> s.hasFrom) && (s.hasFrom ==> s.from == s.owner)
  }

  lemma CountPush(frames: seq<Frame>, f: Frame)
    ensures Count(frames + [f]) == Count(frames) + (if f.InFlight? then 1 else 0)
  {
    assert (frames + [f])[..|frames|] == frames;
  }

  lemma {:induction false} EmptyMeansNone(frames: seq<Frame>)
    ensures Count(frames) > 0 ==> frames != []
  {
  }

  lemma StepKeeps(s: Client, t: Thread, m: Move)
    requires Inv(s) && Allowed(s, t, m)
    ensures Inv(Step(s, t, m))
  {
    CountPush(s.frames, Sending);
    CountPush(s.frames, InFlight);
    match m {
      case Enter => EmptyMeansNone(s.frames);
      case _ =>
    }
  }

  /** The socket goes from open to closed, or is replaced because it is dead. */
  ghost predicate Closes(s: Client, t: Thread, m: Move)
    requires Allowed(s, t, m)
  {
    match m
    case Begin(alive, _) => s.open && !alive
    case _ => s.open && !Step(s, t, m).open
  }

  /** Where the close happens, what `close_socket` asserts holds: at the end of `send_` the
    request has been unmarked already. */
  ghost predicate Asserts(s: Client, t: Thread, m: Move)
    requires Allowed(s, t, m)
  {
    match m
    case End(_) => s.(inFlight := s.inFlight - 1, hasFrom := s.hasFrom && s.inFlight > 1).MayClose(t)
    case _ => s.MayClose(t)
  }

  /** A move that closes is made with no request in flight, or by the thread whose it is. */
  lemma CloseIsSafe(s: Client, t: Thread, m: Move)
    requires Inv(s) && Allowed(s, t, m) && Closes(s, t, m)
    ensures Asserts(s, t, m) && (s.Live() == 0 || s.owner == t)
  {
  }

  /** Main result: in every interleaving the in-flight count is the number of calls of `send_`
    that have marked a request, and no thread closes the socket while another thread has a
    request in flight: every assertion in `close_socket` holds where it is reached. */
  lemma {:induction false} NeverClosedUnderOthers(s: Client, moves: Schedule, k: nat)
    requires Inv(s) && Possible(s, moves) && k <= |moves|
    ensures Possible(s, moves[..k]) && Inv(Run(s, moves[..k]))
    ensures Run(s, moves[..k]).inFlight == Run(s, moves[..k]).Live()
    ensures k < |moves| ==> var q, t, m := Run(s, moves[..k]), moves[k].0, moves[k].1;
              Allowed(q, t, m) && (Closes(q, t, m) ==> Asserts(q, t, m) && (q.Live() == 0 || q.owner == t))
    decreases k
  {
    hide Inv, Step, Allowed, Closes, Asserts;
    if k == 0 {
      if k < |moves| && Closes(s, moves[0].0, moves[0].1) {
        CloseIsSafe(s, moves[0].0, moves[0].1);
      }
      CountIsKnown(s);
    } else {
      StepKeeps(s, moves[0].0, moves[0].1);
      var q := Step(s, moves[0].0, moves[0].1);
      NeverClosedUnderOthers(q, moves[1..], k - 1);
      assert moves[..k][1..] == moves[1..][..k - 1];
    }
  }

  lemma CountIsKnown(s: Client)
    requires Inv(s)
    ensures s.inFlight == s.Live()
  {
  }

  /** In particular from the beginning: every close in every schedule is safe. */
  lemma EveryCloseIsSafe(moves: Schedule, k: nat)
    requires Possible(NEW, moves) && k < |moves|
    ensures Possible(NEW, moves[..k])
    ensures var q, t, m := Run(NEW, moves[..k]), moves[k].0, moves[k].1;
            && q.inFlight == q.Live() && Allowed(q, t, m)
            && (Closes(q, t, m) ==> Asserts(q, t, m) && (q.Live() == 0 || q.owner == t))
  {
    NeverClosedUnderOthers(NEW, moves, k);
  }

  // ----------------------------------------------------------------------- stop

  ghost predicate NoBegin(moves: Schedule) { forall i | 0 <= i < |moves| :: !moves[i].1.Begin? }

  ghost predicate NoStop(moves: Schedule) { forall i | 0 <= i < |moves| :: !moves[i].1.Stop? }

  /** A flag that has been cleared stays cleared until the next `stop`. */
  lemma {:induction false} ClearedStays(s: Client, moves: Schedule)
    requires !s.closeWhenDone && Possible(s, moves) && NoStop(moves)
    ensures !Run(s, moves).closeWhenDone
    decreases |moves|
  {
    if moves != [] {
      ClearedStays(Step(s, moves[0].0, moves[0].1), moves[1..]);
    }
  }

  /** The order to close survives exactly as long as no request begins: neither the end of a
    request nor anything else but the start of one clears it. */
  lemma {:induction false} FlagUntilBegin(s: Client, moves: Schedule)
    requires s.closeWhenDone && Possible(s, moves) && NoStop(moves)
    ensures Run(s, moves).closeWhenDone <==> NoBegin(moves)
    decreases |moves|
  {
    if moves != [] {
      var q := Step(s, moves[0].0, moves[0].1);
      assert NoBegin(moves) <==> !moves[0].1.Begin? && NoBegin(moves[1..]) by {
        assert forall i | 0 <= i < |moves| - 1 :: moves[i + 1] == moves[1..][i];
        assert forall i | 0 < i < |moves| :: moves[i] == moves[1..][i - 1];
      }
      if moves[0].1.Begin? {
        ClearedStays(q, moves[1..]);
      } else {
        FlagUntilBegin(q, moves[1..]);
      }
    }
  }

  /** Main result: after a `stop` during a request, and whatever happens then short of another
    `stop`, the end of a request closes an open socket if and only if that request asks for
    it itself or no request has begun since the `stop`. */
  lemma StopTakesEffectIff(s: Client, t: Thread, moves: Schedule, u: Thread, close: bool)
    requires s.inFlight > 0 && Possible(Step(s, t, Stop), moves) && NoStop(moves)
    requires Allowed(Run(Step(s, t, Stop), moves), u, End(close))
    ensures var q := Run(Step(s, t, Stop), moves);
            q.closeWhenDone <==> NoBegin(moves)
    ensures var q := Run(Step(s, t, Stop), moves);
            q.open ==> (!Step(q, u, End(close)).open <==> close || NoBegin(moves))
  {
    FlagUntilBegin(Step(s, t, Stop), moves);
  }

  /** With nothing in flight `stop` closes the socket at once. */
  lemma StopWhenIdle(s: Client, t: Thread)
    requires s.inFlight <= 0
    ensures !Step(s, t, Stop).open
  {
  }

  /** One schedule behind another. */
  lemma {:induction false} RunAdd(s: Client, a: Schedule, b: Schedule)
    requires Possible(s, a) && Possible(Run(s, a), b)
    ensures Possible(s, a + b) && Run(s, a + b) == Run(Run(s, a), b)
    decreases |a|
  {
    hide Allowed, Step;
    if a == [] {
      assert a + b == b;
    } else {
      assert (a + b)[1..] == a[1..] + b;
      RunAdd(Step(s, a[0].0, a[0].1), a[1..], b);
    }
  }

  const STOPPED: Schedule := [(0, Enter), (0, Begin(false, true)), (1, Stop)]
  const REDIRECTED: Schedule := [(0, Enter), (0, Begin(false, true)), (0, End(false)), (0, Leave)]

  /** A nested request that has begun since does leave the socket open: a witness. */
  lemma NestedRequestForgetsStop()
    ensures var moves := STOPPED + REDIRECTED + [(0, End(false)), (0, Leave)];
            Possible(NEW, moves) && Run(NEW, moves).open && Run(NEW, moves).frames == []
  {
    var stopped := Client(true, 1, 0, true, true, 0, [Sending, InFlight]);
    assert Possible(NEW, STOPPED) && Run(NEW, STOPPED) == stopped;
    assert Possible(stopped, REDIRECTED) && Run(stopped, REDIRECTED) == stopped.(closeWhenDone := false) by {
      Redirected();
    }
    hide Step, Allowed;
    RunAdd(NEW, STOPPED, REDIRECTED);
    LastSend();
    RunAdd(NEW, STOPPED + REDIRECTED, [(0, End(false)), (0, Leave)]);
  }

  lemma Redirected()
    ensures var s := Client(true, 1, 0, true, true, 0, [Sending, InFlight]);
            Possible(s, REDIRECTED) && Run(s, REDIRECTED) == s.(closeWhenDone := false)
  {
  }

  lemma LastSend()
    ensures var s := Client(true, 1, 0, true, false, 0, [Sending, InFlight]);
            var moves: Schedule := [(0, End(false)), (0, Leave)];
            Possible(s, moves) && Run(s, moves).open && Run(s, moves).frames == []
  {
  }

  // ------------------------------------------------------------ single moves

  /** The first block marks a request exactly when the socket is open and alive or a new one can
    be connected; the socket is open then, and closed otherwise. */
  lemma BeginLaw(s: Client, t: Thread, alive: bool, connects: bool)
    requires Allowed(s, t, Begin(alive, connects))
    ensures var q := Step(s, t, Begin(alive, connects));
            && (q.open <==> (s.open && alive) || connects) && !q.closeWhenDone
            && q.inFlight == s.inFlight + (if q.open then 1 else 0)
            && q.frames == (if q.open then s.frames + [InFlight] else s.frames)
  {
  }

  /** A response that asks for it closes the socket; the request stays in flight. */
  lemma ResponseCloses(s: Client, t: Thread)
    requires Allowed(s, t, CloseInResponse)
    ensures var q := Step(s, t, CloseInResponse); !q.open && q.frames == s.frames && q.inFlight == s.inFlight
  {
  }

  /** The last block takes the mark away, and leaves an open socket open unless it or a `stop`
    asks for the close. */
  lemma EndLaw(s: Client, t: Thread, close: bool)
    requires Allowed(s, t, End(close))
    ensures var q := Step(s, t, End(close));
            && q.inFlight == s.inFlight - 1 && |q.frames| == |s.frames| - 1
            && (q.open <==> s.open && !close && !s.closeWhenDone)
  {
  }
}
