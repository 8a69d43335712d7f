/** The voice table of the synthesizer: notes start, are released, timed out and stolen. */
module Voices {
  const VOICE_COUNT: nat := 16

  datatype EnvelopeState = Idle | Attack | Sustain | Release

  /** Linear attack and release; times in seconds. */
  datatype Envelope = Envelope(state: EnvelopeState, level: real, attack: real, release: real, rate: real)
  {
    predicate Active() { state != Idle }

    function NoteOff(): Envelope { if state == Idle then this else this.(state := Release) }

    /** One sample on. */
    function Next(): Envelope
      requires rate >= 1.0
    {
      match state
      case Idle => this.(level := 0.0)
      case Attack =>
        if attack <= 0.0 || level + 1.0 / (attack * rate) >= 1.0 then this.(level := 1.0, state := Sustain)
        else this.(level := level + 1.0 / (attack * rate))
      case Release =>
        if release <= 0.0 || level - 1.0 / (release * rate) <= 0.0 then this.(level := 0.0, state := Idle)
        else this.(level := level - 1.0 / (release * rate))
      case Sustain => this
    }
  }

  datatype Slot = Slot(
    env: Envelope, frequency: real, amplitude: real, waveform: nat,
    noteId: nat, left: int, order: nat, releasing: bool)
  {
    /** What the engine counts as sounding. */
    predicate Sounds() { noteId != 0 && env.Active() }

    function Released(): Slot {
      if Sounds() then this.(env := env.NoteOff(), left := -1, releasing := true) else this
    }

    /** One frame: a sample, the countdown of a timed note, and clearing a note that has ended. */
    function Frame(): Slot
      requires env.rate >= 1.0
    {
      var s := this.(env := env.Next());
      if noteId == 0 then s
      else
        var t := if left > 1 then s.(left := left - 1)
                 else if left == 1 then s.(env := s.env.NoteOff(), left := -1, releasing := true)
                 else s;
        if t.env.Active() then t else t.(noteId := 0, left := -1, order := 0, releasing := false)
    }
  }

  datatype NoteOn = NoteOn(
    frequency: real, amplitude: real, attack: real, duration: real, release: real, waveform: nat, noteId: nat)

  datatype Command = Start(on: NoteOn) | Stop(noteId: nat)

  datatype Table = Table(slots: seq<Slot>, next: nat, rate: real)

  function Clamp(x: real): real { if x < 0.0 then 0.0 else if x > 1.0 then 1.0 else x }

  function AtLeastZero(x: real): real { if x < 0.0 then 0.0 else x }

  /** Frames until a timed note is released: rounded to nearest, at least one. */
  function FramesFor(duration: real, rate: real): int {
    if duration > 0.0 then
      var frames := (duration * rate + 0.5).Floor;
      if frames < 1 then 1 else frames
    else -1
  }

  // ------------------------------------------------------------ choosing a voice

  /** The lowest index from `i` on with `f`, or the number of slots. */
  function First(slots: seq<Slot>, f: Slot -> bool, i: nat): (k: nat)
    requires i <= |slots|
    ensures i <= k <= |slots| && (k < |slots| ==> f(slots[k]))
    ensures forall j | i <= j < k :: !f(slots[j])
    decreases |slots| - i
  {
    if i == |slots| || f(slots[i]) then i else First(slots, f, i + 1)
  }

  /** Is slot `i` to be stolen rather than slot `j`: releasing ones first, then the quieter,
    then the older, then the lower index. */
  predicate Before(slots: seq<Slot>, i: nat, j: nat)
    requires i < |slots| && j < |slots|
  {
    var a, b := slots[i], slots[j];
    if a.releasing != b.releasing then a.releasing
    else if a.env.level != b.env.level then a.env.level < b.env.level
    else if a.order != b.order then a.order < b.order
    else i < j
  }

  /** The sounding slot below `n` that is before all others. */
  ghost predicate IsVictim(slots: seq<Slot>, n: nat, v: nat)
    requires n <= |slots|
  {
    v < n && slots[v].Sounds() && forall j | 0 <= j < n && slots[j].Sounds() && j != v :: Before(slots, v, j)
  }

  /** The victim among the first `n` slots, or 0 when none sounds. */
  function Victim(slots: seq<Slot>, n: nat): (v: nat)
    requires n <= |slots|
    ensures (exists j | 0 <= j < n :: slots[j].Sounds()) ==> IsVictim(slots, n, v)
    ensures (forall j | 0 <= j < n :: !slots[j].Sounds()) ==> v == 0
  {
    if n == 0 then 0
    else
      var v := Victim(slots, n - 1);
      if !slots[n - 1].Sounds() then v
      else if v < n - 1 && slots[v].Sounds() && Before(slots, v, n - 1) then v
      else n - 1
  }

  function HasNote(id: nat): Slot -> bool { (s: Slot) => s.noteId == id }

  function SoundsAs(id: nat): Slot -> bool { (s: Slot) => s.noteId == id && s.env.Active() }

  function IsSilent(): Slot -> bool { (s: Slot) => !s.Sounds() }

  /** The slot a note goes to: where it sounds, else the first silent one, else the victim. */
  function Target(slots: seq<Slot>, id: nat): (k: nat)
    requires |slots| == VOICE_COUNT
    ensures k < VOICE_COUNT
  {
    var same := First(slots, SoundsAs(id), 0);
    if same < |slots| then same
    else
      var free := First(slots, IsSilent(), 0);
      if free < |slots| then free else Victim(slots, |slots|)
  }

  // -------------------------------------------------------------------- commands

  /** The slot as it starts a note. */
  function Started(s: Slot, on: NoteOn, order: nat, rate: real): Slot {
    Slot(Envelope(Attack, 0.0, AtLeastZero(on.attack), AtLeastZero(on.release), s.env.rate),
         AtLeastZero(on.frequency), Clamp(on.amplitude), on.waveform,
         on.noteId, FramesFor(on.duration, rate), order, false)
  }

  function ReleaseAll(slots: seq<Slot>): (r: seq<Slot>)
    ensures |r| == |slots| && forall i | 0 <= i < |slots| :: r[i] == slots[i].Released()
  {
    seq(|slots|, i requires 0 <= i < |slots| => slots[i].Released())
  }

  /** `applyCommand` */
  function Apply(t: Table, c: Command): (q: Table)
    requires |t.slots| == VOICE_COUNT
    ensures |q.slots| == VOICE_COUNT
  {
    match c
    case Start(on) =>
      var k := Target(t.slots, on.noteId);
      t.(slots := t.slots[k := Started(t.slots[k], on, t.next, t.rate)], next := t.next + 1)
    case Stop(id) =>
      if id == 0 then t.(slots := ReleaseAll(t.slots))
      else
        var k := First(t.slots, HasNote(id), 0);
        if k < |t.slots| then t.(slots := t.slots[k := t.slots[k].Released()]) else t
  }

  function FrameAll(slots: seq<Slot>): (r: seq<Slot>)
    requires forall i | 0 <= i < |slots| :: slots[i].env.rate >= 1.0
    ensures |r| == |slots| && forall i | 0 <= i < |slots| :: r[i] == slots[i].Frame()
  {
    seq(|slots|, i requires 0 <= i < |slots| => slots[i].Frame())
  }

  // ---------------------------------------------------------------- the invariant

  /** What is true of each slot between commands and frames. */
  predicate SlotInv(s: Slot, next: nat) {
    && s.env.rate >= 1.0 && 0.0 <= s.env.level <= 1.0
    && (s.noteId != 0 <==> s.env.Active())
    && (s.noteId == 0 ==> s.left == -1 && s.order == 0 && !s.releasing)
    && (s.noteId != 0 ==> 0 < s.order < next && (s.left > 0 || s.left == -1))
    && (s.releasing <==> s.env.state == Release) && (s.releasing ==> s.left == -1)
  }

  /** Sounding slots have different notes and different start orders. */
  ghost predicate Inv(t: Table) {
    && |t.slots| == VOICE_COUNT && t.next > 0
    && (forall i | 0 <= i < VOICE_COUNT :: SlotInv(t.slots[i], t.next))
    && (forall i, j | 0 <= i < j < VOICE_COUNT && t.slots[i].noteId != 0 ::
          t.slots[i].noteId != t.slots[j].noteId && t.slots[i].order != t.slots[j].order)
  }

  function Silent(rate: real): Slot {
    Slot(Envelope(Idle, 0.0, 0.01, 0.1, if rate < 1.0 then 1.0 else rate), 440.0, 0.5, 0, 0, -1, 0, false)
  }

  /** The table after `start`. */
  function Fresh(rate: real): Table { Table(seq(VOICE_COUNT, _ => Silent(rate)), 1, rate) }

  lemma FreshInv(rate: real)
    ensures Inv(Fresh(rate))
  {
  }

  lemma StartedInv(s: Slot, on: NoteOn, order: nat, rate: real)
    requires on.noteId != 0 && order > 0 && s.env.rate >= 1.0
    ensures SlotInv(Started(s, on, order, rate), order + 1)
  {
  }

  /** Where the note of a command goes, no other slot has that note. */
  lemma TargetIsOnly(t: Table, id: nat, j: nat)
    requires Inv(t) && id != 0 && j < VOICE_COUNT && j != Target(t.slots, id)
    ensures t.slots[j].noteId != id
  {
    hide Victim;
  }

  lemma StartKeeps(t: Table, on: NoteOn)
    requires Inv(t) && on.noteId != 0
    ensures Inv(Apply(t, Start(on)))
  {
    hide Target, Started;
    var k := Target(t.slots, on.noteId);
    StartedInv(t.slots[k], on, t.next, t.rate);
    StartedIs(t.slots[k], on, t.next, t.rate);
    forall j | 0 <= j < VOICE_COUNT && j != k
      ensures t.slots[j].noteId != on.noteId
    {
      TargetIsOnly(t, on.noteId, j);
    }
  }

  lemma StartedIs(s: Slot, on: NoteOn, order: nat, rate: real)
    ensures Started(s, on, order, rate).noteId == on.noteId && Started(s, on, order, rate).order == order
  {
  }

  lemma ReleasedInv(s: Slot, next: nat)
    requires SlotInv(s, next)
    ensures SlotInv(s.Released(), next) && s.Released().noteId == s.noteId && s.Released().order == s.order
  {
  }

  lemma StopKeeps(t: Table, id: nat)
    requires Inv(t)
    ensures Inv(Apply(t, Stop(id)))
  {
    hide Slot.Released, SlotInv;
    forall i | 0 <= i < VOICE_COUNT
      ensures SlotInv(t.slots[i].Released(), t.next)
      ensures t.slots[i].Released().noteId == t.slots[i].noteId && t.slots[i].Released().order == t.slots[i].order
    {
      ReleasedInv(t.slots[i], t.next);
    }
  }

  lemma NextInRange(e: Envelope)
    requires e.rate >= 1.0 && 0.0 <= e.level <= 1.0
    ensures 0.0 <= e.Next().level <= 1.0 && e.Next().rate == e.rate
    ensures e.state == Idle ==> e.Next().state == Idle
    ensures e.state == Attack || e.state == Sustain ==> e.Next().state in {Attack, Sustain}
    ensures e.state == Release ==> e.Next().state in {Idle, Release}
  {
    if e.state == Attack && e.attack > 0.0 {
      assert 1.0 / (e.attack * e.rate) > 0.0 by { Positive(e.attack, e.rate); }
    }
    if e.state == Release && e.release > 0.0 {
      assert 1.0 / (e.release * e.rate) > 0.0 by { Positive(e.release, e.rate); }
    }
  }

  lemma Positive(a: real, b: real)
    requires a > 0.0 && b >= 1.0
    ensures a * b > 0.0 && 1.0 / (a * b) > 0.0
  {
  }

  lemma FrameInv(s: Slot, next: nat)
    requires SlotInv(s, next)
    ensures SlotInv(s.Frame(), next)
    ensures s.Frame().noteId != 0 ==> s.Frame().noteId == s.noteId && s.Frame().order == s.order > 0
    ensures s.Frame().noteId == 0 ==> s.Frame().order == 0
  {
    hide Envelope.Next;
    NextInRange(s.env);
  }

  lemma FrameKeeps(t: Table)
    requires Inv(t)
    ensures Inv(t.(slots := FrameAll(t.slots)))
  {
    hide Slot.Frame, SlotInv;
    RatedSlots(t);
    forall i | 0 <= i < VOICE_COUNT
      ensures SlotInv(t.slots[i].Frame(), t.next)
      ensures t.slots[i].Frame().noteId != 0 ==>
        t.slots[i].Frame().noteId == t.slots[i].noteId && t.slots[i].Frame().order == t.slots[i].order > 0
      ensures t.slots[i].Frame().noteId == 0 ==> t.slots[i].Frame().order == 0
    {
      FrameInv(t.slots[i], t.next);
    }
  }

  lemma RatedSlots(t: Table)
    requires Inv(t)
    ensures forall i | 0 <= i < |t.slots| :: t.slots[i].env.rate >= 1.0
  {
  }

  // ---------------------------------------------------------------- whole runs

  datatype Event = Command(c: Command) | Frame

  /** Every note started has a note id, as `enqueueNoteOn` sees to. */
  predicate Named(e: Event) { e.Command? && e.c.Start? ==> e.c.on.noteId != 0 }

  function After(t: Table, e: Event): Table
    requires Inv(t)
  {
    match e
    case Command(c) => Apply(t, c)
    case Frame => RatedSlots(t); t.(slots := FrameAll(t.slots))
  }

  lemma AfterKeeps(t: Table, e: Event)
    requires Inv(t) && Named(e)
    ensures Inv(After(t, e))
  {
    match e
    case Command(Start(on)) => StartKeeps(t, on);
    case Command(Stop(id)) => StopKeeps(t, id);
    case Frame => FrameKeeps(t);
  }

  /** The table after a run of commands and frames: the invariant holds throughout. */
  function Run(t: Table, events: seq<Event>): (q: Table)
    requires Inv(t) && forall e | e in events :: Named(e)
    ensures Inv(q)
  {
    if events == [] then t
    else
      var p := Run(t, events[..|events| - 1]);
      AfterKeeps(p, events[|events| - 1]);
      After(p, events[|events| - 1])
  }

  /** The id is what the invariant needs: starting a note without one leaves a voice sounding
    that no command can reach any more. */
  lemma NamelessBreaks(t: Table, on: NoteOn)
    requires Inv(t)
    ensures Inv(Apply(t, Start(on))) <==> on.noteId != 0
  {
    if on.noteId != 0 {
      StartKeeps(t, on);
    } else {
      var k := Target(t.slots, 0);
      var s := Apply(t, Start(on)).slots[k];
      assert s.noteId == 0 && s.env.Active() && !SlotInv(s, t.next + 1);
    }
  }

  // ------------------------------------------------------------ what commands do

  /** Slot `k` sounds with note `id`. */
  predicate Plays(t: Table, k: nat, id: nat) {
    k < |t.slots| && t.slots[k].noteId == id && t.slots[k].Sounds()
  }

  /** A note goes to where it sounds already; else to a silent slot if there is one; else to
    the slot that is first under releasing, level, age and index.  It then starts from
    silence as the youngest note, and every other slot stays as it was. */
  lemma StartPlays(t: Table, on: NoteOn)
    requires Inv(t) && on.noteId != 0
    ensures var q, k := Apply(t, Start(on)), Target(t.slots, on.noteId);
            && Plays(q, k, on.noteId) && q.slots[k].env.state == Attack && q.slots[k].env.level == 0.0
            && q.slots[k].order == t.next && !q.slots[k].releasing
            && (forall j | 0 <= j < VOICE_COUNT && j != k :: q.slots[j] == t.slots[j])
            && if exists j :: Plays(t, j, on.noteId) then Plays(t, k, on.noteId)
               else if exists j | 0 <= j < VOICE_COUNT :: !t.slots[j].Sounds() then !t.slots[k].Sounds()
               else IsVictim(t.slots, VOICE_COUNT, k)
  {
    hide First, Victim;
    var same, free := First(t.slots, SoundsAs(on.noteId), 0), First(t.slots, IsSilent(), 0);
    if j: nat :| Plays(t, j, on.noteId) {
      assert SoundsAs(on.noteId)(t.slots[j]);
    } else {
      assert same < VOICE_COUNT ==> Plays(t, same, on.noteId);
      assert free < VOICE_COUNT ==> !t.slots[free].Sounds();
      if j: nat :| j < VOICE_COUNT && !t.slots[j].Sounds() {
        assert IsSilent()(t.slots[j]);
      } else {
        assert t.slots[0].Sounds();
      }
    }
  }

  /** A stop reaches the note that sounds, wherever it is, and nothing else. */
  lemma StopReaches(t: Table, id: nat, k: nat)
    requires Inv(t) && id != 0 && Plays(t, k, id)
    ensures var q := Apply(t, Stop(id));
            && q.slots == t.slots[k := t.slots[k].Released()]
            && Plays(q, k, id) && q.slots[k].env.state == Release && q.slots[k].releasing
  {
    hide First;
    assert HasNote(id)(t.slots[k]);
  }

  /** Stopping note 0 releases every sounding note. */
  lemma StopAllReaches(t: Table)
    requires Inv(t)
    ensures forall k | 0 <= k < VOICE_COUNT && t.slots[k].Sounds() ::
              var s := Apply(t, Stop(0)).slots[k];
              s.noteId == t.slots[k].noteId && s.env.state == Release && s.releasing && s.left == -1
  {
  }

  // ----------------------------------------------------------------- the status

  /** The note ids a status lists among the first `n` slots. */
  function Listed(slots: seq<Slot>, n: nat): (ids: seq<nat>)
    requires n <= |slots|
  {
    if n == 0 then []
    else Listed(slots, n - 1) + (if slots[n - 1].Sounds() then [slots[n - 1].noteId] else [])
  }

  ghost predicate PlaysBelow(t: Table, n: nat, id: nat) {
    exists k | 0 <= k < n :: Plays(t, k, id)
  }

  /** A status lists exactly the sounding notes. */
  lemma {:induction false} ListedIff(t: Table, n: nat, id: nat)
    requires n <= |t.slots|
    ensures id in Listed(t.slots, n) <==> PlaysBelow(t, n, id)
  {
    if n > 0 {
      ListedIff(t, n - 1, id);
      assert Plays(t, n - 1, id) ==> PlaysBelow(t, n, id);
      if PlaysBelow(t, n - 1, id) {
        var k :| 0 <= k < n - 1 && Plays(t, k, id);
        assert PlaysBelow(t, n, id);
      }
    }
  }

  /** It lists each of them once. */
  lemma {:induction false} ListedOnce(t: Table, n: nat)
    requires Inv(t) && n <= VOICE_COUNT
    ensures forall i, j | 0 <= i < j < |Listed(t.slots, n)| :: Listed(t.slots, n)[i] != Listed(t.slots, n)[j]
  {
    hide SlotInv;
    if n > 0 {
      ListedOnce(t, n - 1);
      var before, id := Listed(t.slots, n - 1), t.slots[n - 1].noteId;
      ListedIff(t, n - 1, id);
      if t.slots[n - 1].Sounds() {
        assert id !in before;
        assert Listed(t.slots, n) == before + [id];
      }
    }
  }

  // --------------------------------------------------------------- timed release

  /** `n` frames of one slot. */
  function Frames(s: Slot, n: nat): (q: Slot)
    requires s.env.rate >= 1.0
    ensures q.env.rate == s.env.rate
  {
    if n == 0 then s else Frames(s, n - 1).Frame()
  }

  /** A note with a time is held for exactly that many frames and then released. */
  lemma {:induction false} HeldForItsTime(s: Slot, next: nat, n: nat)
    requires SlotInv(s, next) && s.left > 0 && n <= s.left
    ensures SlotInv(Frames(s, n), next) && Frames(s, n).noteId == s.noteId
    ensures n < s.left ==> !Frames(s, n).releasing && Frames(s, n).left == s.left - n
    ensures n == s.left ==> Frames(s, n).releasing && Frames(s, n).env.state == Release && Frames(s, n).left == -1
  {
    hide Envelope.Next;
    if n > 0 {
      HeldForItsTime(s, next, n - 1);
      var p := Frames(s, n - 1);
      NextInRange(p.env);
      FrameInv(p, next);
    }
  }

  /** What one frame takes off a releasing note's level. */
  function Fall(e: Envelope): real
    requires e.rate >= 1.0 && e.release > 0.0
  {
    Positive(e.release, e.rate);
    1.0 / (e.release * e.rate)
  }

  lemma FallOnce(s: Slot, next: nat)
    requires SlotInv(s, next) && s.releasing && s.env.release > 0.0
    ensures var q, level := s.Frame(), s.env.level - Fall(s.env);
            if level <= 0.0 then q.noteId == 0
            else q == s.(env := s.env.(level := level))
  {
  }

  lemma SilentStays(s: Slot, next: nat)
    requires SlotInv(s, next) && s.noteId == 0
    ensures s.Frame().noteId == 0
  {
  }

  /** Each frame lowers the level of a released note by one step, and the frame that would
    take it to zero frees the slot: after `n` frames the slot is free if and only if `n`
    steps reach the level it was released at. */
  lemma {:induction false} ReleaseEnds(s: Slot, next: nat, n: nat)
    requires SlotInv(s, next) && s.releasing && s.env.release > 0.0 && s.env.level > 0.0
    ensures SlotInv(Frames(s, n), next)
    ensures Frames(s, n).noteId == 0 <==> n as real * Fall(s.env) >= s.env.level
    ensures Frames(s, n).noteId != 0
      ==> Frames(s, n) == s.(env := s.env.(level := s.env.level - n as real * Fall(s.env)))
  {
    hide Fall, Slot.Frame;
    assert Fall(s.env) > 0.0 by { FallPositive(s.env); }
    if n > 0 {
      ReleaseEnds(s, next, n - 1);
      var p := Frames(s, n - 1);
      FrameInv(p, next);
      assert n as real * Fall(s.env) == (n - 1) as real * Fall(s.env) + Fall(s.env);
      if p.noteId == 0 {
        SilentStays(p, next);
      } else {
        FallOnce(p, next);
        assert Fall(p.env) == Fall(s.env) by { SameFall(p.env, s.env); }
      }
    }
  }

  lemma FallPositive(e: Envelope)
    requires e.rate >= 1.0 && e.release > 0.0
    ensures Fall(e) > 0.0
  {
    Positive(e.release, e.rate);
  }

  lemma SameFall(d: Envelope, e: Envelope)
    requires d.rate == e.rate >= 1.0 && d.release == e.release > 0.0
    ensures Fall(d) == Fall(e)
  {
  }
}
