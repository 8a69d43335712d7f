/** The life of a note in frames: how it starts, rises, is held and let go. */
module NoteLife {
  import opened Voices

  // ------------------------------------------------------------- many frames

  /** `n` frames of the whole table are `n` frames of each of its slots. */
  function TableFrames(t: Table, n: nat): (q: Table)
    requires Inv(t)
    ensures Inv(q)
  {
    if n == 0 then t
    else
      AfterKeeps(TableFrames(t, n - 1), Frame);
      After(TableFrames(t, n - 1), Frame)
  }

  lemma {:induction false} SlotsOverFrames(t: Table, n: nat, k: nat)
    requires Inv(t) && k < VOICE_COUNT
    ensures t.slots[k].env.rate >= 1.0 && TableFrames(t, n).slots[k] == Frames(t.slots[k], n)
    ensures TableFrames(t, n).next == t.next
  {
    hide Slot.Frame;
    RatedSlots(t);
    if n > 0 {
      SlotsOverFrames(t, n - 1, k);
      RatedSlots(TableFrames(t, n - 1));
    }
  }

  // ---------------------------------------------------------------- the start

  /** A started note sounds as the command says: a negative frequency or time counts as zero,
    and the amplitude is brought between 0 and 1. */
  lemma StartsAsAsked(t: Table, on: NoteOn)
    requires Inv(t) && on.noteId != 0
    ensures var s := Apply(t, Start(on)).slots[Target(t.slots, on.noteId)];
            && s.noteId == on.noteId && s.waveform == on.waveform
            && (on.frequency >= 0.0 ==> s.frequency == on.frequency) && (on.frequency < 0.0 ==> s.frequency == 0.0)
            && (0.0 <= on.amplitude <= 1.0 ==> s.amplitude == on.amplitude)
            && (on.amplitude < 0.0 ==> s.amplitude == 0.0) && (on.amplitude > 1.0 ==> s.amplitude == 1.0)
            && (on.attack >= 0.0 ==> s.env.attack == on.attack) && (on.attack < 0.0 ==> s.env.attack == 0.0)
            && (on.release >= 0.0 ==> s.env.release == on.release) && (on.release < 0.0 ==> s.env.release == 0.0)
  {
    hide Target;
  }

  /** When every slot sounds, and none with this note, the note takes the slot of one that is
    being let go if there is one; among those the quietest; and among equally quiet ones
    the one that started first. */
  lemma StealsLeast(t: Table, on: NoteOn, j: nat)
    requires Inv(t) && on.noteId != 0 && j < VOICE_COUNT
    requires forall i | 0 <= i < VOICE_COUNT :: t.slots[i].Sounds() && t.slots[i].noteId != on.noteId
    ensures var a, b := t.slots[Target(t.slots, on.noteId)], t.slots[j];
            && (b.releasing ==> a.releasing)
            && (a.releasing == b.releasing ==> a.env.level <= b.env.level)
            && (a.releasing == b.releasing && a.env.level == b.env.level ==> a.order <= b.order)
  {
    hide First, Victim, SlotInv;
    StartPlays(t, on);
    assert forall i: nat :: !Plays(t, i, on.noteId);
    var k := Target(t.slots, on.noteId);
    if j != k {
      assert IsVictim(t.slots, VOICE_COUNT, k);
    }
  }

  // ---------------------------------------------------------------- the attack

  lemma RiseOnce(s: Slot, next: nat)
    requires SlotInv(s, next) && s.env.state == Attack && s.env.attack > 0.0 && s.left == -1
    ensures s.env.attack * s.env.rate > 0.0
    ensures var level := s.env.level + 1.0 / (s.env.attack * s.env.rate);
            s.Frame()
            == s.(env := if level >= 1.0 then s.env.(level := 1.0, state := Sustain) else s.env.(level := level))
  {
    Positive(s.env.attack, s.env.rate);
  }

  lemma StaysUp(s: Slot, next: nat)
    requires SlotInv(s, next) && s.env.state == Sustain && s.left == -1
    ensures s.Frame() == s
  {
  }

  /** An untimed note rises by equal steps and then stays at full level: after `n` frames its
    level is `n` steps, or 1 when that is more. */
  lemma {:induction false} AttackRises(s: Slot, next: nat, n: nat)
    requires SlotInv(s, next) && s.env.state == Attack && s.env.level == 0.0 && s.env.attack > 0.0 && s.left == -1
    ensures s.env.attack * s.env.rate > 0.0
    ensures var level := n as real * (1.0 / (s.env.attack * s.env.rate));
            Frames(s, n)
            == s.(env := if level >= 1.0 then s.env.(level := 1.0, state := Sustain) else s.env.(level := level))
    ensures SlotInv(Frames(s, n), next)
  {
    hide Slot.Frame, SlotInv;
    Rising(s, next);
    var step := 1.0 / (s.env.attack * s.env.rate);
    if n > 0 {
      AttackRises(s, next, n - 1);
      var p := Frames(s, n - 1);
      assert n as real * step == (n - 1) as real * step + step;
      FrameInv(p, next);
      if p.env.state == Attack {
        RiseOnce(p, next);
      } else {
        StaysUp(p, next);
      }
    }
  }

  lemma Rising(s: Slot, next: nat)
    requires SlotInv(s, next) && s.env.attack > 0.0
    ensures s.env.rate >= 1.0 && s.env.attack * s.env.rate > 0.0 && 1.0 / (s.env.attack * s.env.rate) > 0.0
  {
    Positive(s.env.attack, s.env.rate);
  }

  // ------------------------------------------------------------------ holding

  /** `frames` is `time` rounded to the nearest number of frames, halves up, but at least 1. */
  predicate Nearest(frames: nat, time: real) {
    if time < 0.5 then frames == 1 else frames as real - 0.5 <= time < frames as real + 0.5
  }

  lemma FramesAreNearest(duration: real, rate: real)
    requires duration > 0.0
    ensures FramesFor(duration, rate) > 0
    ensures duration * rate >= 0.0 ==> Nearest(FramesFor(duration, rate), duration * rate)
  {
    var x := duration * rate + 0.5;
    assert x.Floor as real <= x < x.Floor as real + 1.0;
  }

  /** Main result: a note with a time of `d` seconds is held for the nearest number of frames,
    at least one, and is then let go, if no command comes between. */
  lemma TimedNoteIsHeld(t: Table, on: NoteOn, n: nat) returns (frames: nat)
    requires Inv(t) && on.noteId != 0 && on.duration > 0.0 && t.rate >= 0.0
    ensures Nearest(frames, on.duration * t.rate)
    ensures Inv(Apply(t, Start(on)))
    ensures var q, k := TableFrames(Apply(t, Start(on)), n), Target(t.slots, on.noteId);
            && (n < frames ==> Plays(q, k, on.noteId) && !q.slots[k].releasing)
            && (n == frames ==> q.slots[k].noteId == on.noteId && q.slots[k].releasing)
  {
    hide Target, Slot.Frame, SlotInv;
    StartKeeps(t, on);
    var u, k := Apply(t, Start(on)), Target(t.slots, on.noteId);
    frames := FramesFor(on.duration, t.rate);
    NonNegative(on.duration, t.rate);
    FramesAreNearest(on.duration, t.rate);
    SlotsOverFrames(u, n, k);
    SlotOf(u, k);
    if n <= frames {
      HeldForItsTime(u.slots[k], u.next, n);
      SoundsIff(Frames(u.slots[k], n), u.next);
    }
  }

  lemma NonNegative(a: real, b: real)
    requires a >= 0.0 && b >= 0.0
    ensures a * b >= 0.0
  {
  }

  lemma SlotOf(t: Table, k: nat)
    requires Inv(t) && k < VOICE_COUNT
    ensures SlotInv(t.slots[k], t.next)
  {
  }

  lemma SoundsIff(s: Slot, next: nat)
    requires SlotInv(s, next)
    ensures s.Sounds() <==> s.noteId != 0
  {
  }

  /** A note without a time is held until a command lets it go. */
  lemma UntimedNoteIsHeld(t: Table, on: NoteOn, n: nat)
    requires Inv(t) && on.noteId != 0 && on.duration <= 0.0
    ensures Inv(Apply(t, Start(on)))
    ensures var q, k := TableFrames(Apply(t, Start(on)), n), Target(t.slots, on.noteId);
            Plays(q, k, on.noteId) && !q.slots[k].releasing
  {
    hide Target, Slot.Frame, SlotInv;
    StartKeeps(t, on);
    var u, k := Apply(t, Start(on)), Target(t.slots, on.noteId);
    SlotsOverFrames(u, n, k);
    SlotOf(u, k);
    HeldOn(u.slots[k], u.next, n);
    SoundsIff(Frames(u.slots[k], n), u.next);
  }

  lemma {:induction false} HeldOn(s: Slot, next: nat, n: nat)
    requires SlotInv(s, next) && s.noteId != 0 && s.left == -1 && !s.releasing
    ensures var q := Frames(s, n); SlotInv(q, next) && q.noteId == s.noteId && q.left == -1 && !q.releasing
  {
    hide Slot.Frame, SlotInv;
    Rated(s, next);
    if n > 0 {
      HeldOn(s, next, n - 1);
      HeldOnce(Frames(s, n - 1), next);
    }
  }

  lemma Rated(s: Slot, next: nat)
    requires SlotInv(s, next)
    ensures s.env.rate >= 1.0
  {
  }

  lemma HeldOnce(s: Slot, next: nat)
    requires SlotInv(s, next) && s.noteId != 0 && s.left == -1 && !s.releasing
    ensures var q := s.Frame(); SlotInv(q, next) && q.noteId == s.noteId && q.left == -1 && !q.releasing
  {
    hide Envelope.Next;
    NextInRange(s.env);
    FrameInv(s, next);
  }

  // ------------------------------------------------------------- without times

  /** Without an attack time a note is at full level after a frame, and without a release time
    it ends with the next one. */
  lemma AtOnce(s: Slot, next: nat)
    requires SlotInv(s, next)
    ensures s.env.state == Attack && s.env.attack <= 0.0 ==> s.Frame().env.level == 1.0
    ensures s.releasing && s.env.release <= 0.0 ==> s.Frame().noteId == 0
  {
  }
}
