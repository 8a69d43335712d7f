/** The audio engine object: command queue, voices, and the bookkeeping of rendering. */
module AudioEngines {
  import opened Voices
  import opened NoteLife
  import CommandRing

  predicate NamedCommand(c: Command) { Named(Event.Command(c)) }

  function Commands(commands: seq<Command>): (events: seq<Event>)
    ensures |events| == |commands| && forall k | 0 <= k < |events| :: events[k] == Event.Command(commands[k])
  {
    seq(|commands|, k requires 0 <= k < |commands| => Event.Command(commands[k]))
  }

  function JustFrames(n: nat): (events: seq<Event>)
    ensures |events| == n && forall k | 0 <= k < n :: events[k] == Frame
  {
    seq(n, _ => Frame)
  }

  ghost predicate AllNamed(events: seq<Event>) { forall e | e in events :: Named(e) }

  lemma RunPush(t: Table, events: seq<Event>, k: nat)
    requires Inv(t) && AllNamed(events) && k < |events|
    ensures AllNamed(events[..k]) && AllNamed(events[..k + 1])
    ensures Run(t, events[..k + 1]) == After(Run(t, events[..k]), events[k])
  {
    assert events[..k + 1][..k] == events[..k];
  }

  /** Rendering frames alone. */
  lemma {:induction false} FramesAreRun(t: Table, n: nat)
    requires Inv(t)
    ensures AllNamed(JustFrames(n)) && Run(t, JustFrames(n)) == TableFrames(t, n)
  {
    hide Slot.Frame;
    if n > 0 {
      FramesAreRun(t, n - 1);
      assert JustFrames(n)[..n - 1] == JustFrames(n - 1);
    }
  }

  class AudioEngine {
    const voices: array<Slot>
    var next: nat
    const rate: real
    var nextNoteId: nat

    const queue: array<Command>
    var readIndex: nat
    var writeIndex: nat

    ghost function Value(): Table
      reads this, voices
    {
      Table(voices[..], next, rate)
    }

    /** Commands accepted and not yet applied. */
    ghost function Pending(): seq<Command>
      requires readIndex <= writeIndex && queue.Length == CommandRing.CAPACITY
      reads this, queue
    {
      seq(writeIndex - readIndex, k requires 0 <= k < writeIndex - readIndex reads this, queue
        requires readIndex <= writeIndex && queue.Length == CommandRing.CAPACITY
        => queue[(readIndex + k) % CommandRing.CAPACITY])
    }

    ghost predicate Valid()
      reads this, voices, queue
    {
      && queue.Length == CommandRing.CAPACITY && voices.Length == VOICE_COUNT
      && readIndex <= writeIndex <= readIndex + CommandRing.CAPACITY && nextNoteId > 0
      && Inv(Value()) && forall k | 0 <= k < |Pending()| :: NamedCommand(Pending()[k])
    }

    constructor (rate: real)
      ensures Valid() && Value() == Fresh(rate) && Pending() == []
      ensures fresh(voices) && fresh(queue)
    {
      this.rate := rate;
      voices := new Slot[VOICE_COUNT](_ => Silent(rate));
      queue := new Command[CommandRing.CAPACITY](_ => Stop(0));
      next, nextNoteId, readIndex, writeIndex := 1, 1, 0, 0;
      new;
      FreshInv(rate);
      assert voices[..] == seq(VOICE_COUNT, _ => Silent(rate));
    }

    // -------------------------------------------------------- choosing a voice

    /** `selectVoiceIndexToSteal` */
    method SelectVoiceIndexToSteal() returns (victim: nat)
      requires voices.Length == VOICE_COUNT
      ensures victim == Victim(voices[..], VOICE_COUNT)
    {
      var hasCandidate := false;
      var best: int := 0;
      for i := 0 to VOICE_COUNT
        invariant 0 <= best == Victim(voices[..], i) && hasCandidate == exists j | 0 <= j < i :: voices[j].Sounds()
        invariant hasCandidate ==> best < i && voices[best].Sounds()
      {
        if voices[i].Sounds() {
          if !hasCandidate {
            best, hasCandidate := i, true;
          } else if voices[i].releasing != voices[best].releasing {
            if voices[i].releasing {
              best := i;
            }
          } else if voices[i].env.level < voices[best].env.level {
            best := i;
          } else if voices[i].env.level > voices[best].env.level {
          } else if voices[i].order < voices[best].order {
            best := i;
          } else if voices[i].order > voices[best].order {
          } else if i < best {
            best := i;
          }
        }
      }
      victim := best;
    }

    /** `selectVoiceIndexForNoteOn` */
    method SelectVoiceIndexForNoteOn(noteId: nat) returns (k: nat)
      requires voices.Length == VOICE_COUNT
      ensures k == Target(voices[..], noteId)
    {
      for i := 0 to VOICE_COUNT
        invariant forall j | 0 <= j < i :: !SoundsAs(noteId)(voices[j])
      {
        if voices[i].noteId == noteId && voices[i].env.Active() {
          return i;
        }
      }
      for i := 0 to VOICE_COUNT
        invariant forall j | 0 <= j < i :: !IsSilent()(voices[j])
      {
        if !voices[i].Sounds() {
          return i;
        }
      }
      k := SelectVoiceIndexToSteal();
    }

    // ------------------------------------------------------------ commands

    /** `startVoice` */
    method StartVoice(k: nat, on: NoteOn)
      requires voices.Length == VOICE_COUNT && k < VOICE_COUNT
      modifies this`next, voices
      ensures Value() == old(Value()).(slots := old(voices[..])[k := Started(old(voices[k]), on, old(next), rate)],
                                       next := old(next) + 1)
    {
      var voice := voices[k];
      voice := voice.(env := voice.env.(attack := AtLeastZero(on.attack), release := AtLeastZero(on.release)));
      voice := voice.(env := voice.env.(level := 0.0, state := Attack));
      voice := voice.(frequency := AtLeastZero(on.frequency), waveform := on.waveform,
                        amplitude := Clamp(on.amplitude));
      voice := voice.(noteId := on.noteId, order := next, releasing := false);
      next := next + 1;
      voice := voice.(left := FramesFor(on.duration, rate));
      voices[k] := voice;
    }

    /** `releaseVoice` */
    method ReleaseVoice(k: nat)
      requires k < voices.Length
      modifies voices
      ensures voices[..] == old(voices[..])[k := old(voices[k]).Released()]
    {
      if !voices[k].Sounds() {
        return;
      }
      voices[k] := voices[k].(env := voices[k].env.NoteOff());
      voices[k] := voices[k].(left := -1);
      voices[k] := voices[k].(releasing := true);
    }

    /** `applyCommand` */
    method ApplyCommand(c: Command)
      requires voices.Length == VOICE_COUNT
      modifies this`next, voices
      ensures Value() == Apply(old(Value()), c)
    {
      match c
      case Start(on) =>
        var k := SelectVoiceIndexForNoteOn(on.noteId);
        StartVoice(k, on);
      case Stop(id) =>
        if id == 0 {
          for k := 0 to VOICE_COUNT
            invariant next == old(next)
            invariant forall j | 0 <= j < VOICE_COUNT ::
              voices[j] == if j < k then old(voices[j]).Released() else old(voices[j])
          {
            ReleaseVoice(k);
          }
          assert voices[..] == ReleaseAll(old(voices[..]));
          return;
        }
        for k := 0 to VOICE_COUNT
          invariant next == old(next) && voices[..] == old(voices[..])
          invariant forall j | 0 <= j < k :: !HasNote(id)(voices[j])
        {
          if voices[k].noteId == id {
            ReleaseVoice(k);
            return;
          }
        }
    }

    /** `enqueueCommand`, when no drain is going on */
    method EnqueueCommand(c: Command) returns (accepted: bool)
      requires Valid() && NamedCommand(c)
      modifies this`writeIndex, queue
      ensures Valid() && Value() == old(Value())
      ensures accepted == (|old(Pending())| < CommandRing.CAPACITY)
      ensures Pending() == if accepted then old(Pending()) + [c] else old(Pending())
    {
      if writeIndex - readIndex >= CommandRing.CAPACITY {
        return false;
      }
      forall k | readIndex <= k < writeIndex
        ensures k % CommandRing.CAPACITY != writeIndex % CommandRing.CAPACITY
      {
        CommandRing.DistinctSlots(k, writeIndex);
      }
      queue[writeIndex % CommandRing.CAPACITY] := c;
      writeIndex := writeIndex + 1;
      accepted := true;
      ghost var n := writeIndex - readIndex - 1;
      assert Pending()[n] == c;
      assert forall k | 0 <= k < n :: Pending()[k] == old(Pending())[k];
      assert Pending() == old(Pending()) + [c];
    }

    /** `enqueueNoteOn`: a note without an id gets the next one, which no note had before. */
    method EnqueueNoteOn(on: NoteOn) returns (noteId: nat)
      requires Valid()
      modifies this`writeIndex, this`nextNoteId, queue
      ensures Valid() && Value() == old(Value()) && noteId != 0
      ensures if on.noteId != 0 then noteId == on.noteId && nextNoteId == old(nextNoteId)
              else old(nextNoteId) <= noteId < nextNoteId
      ensures Pending() == if |old(Pending())| < CommandRing.CAPACITY
                           then old(Pending()) + [Start(on.(noteId := noteId))] else old(Pending())
    {
      noteId := on.noteId;
      if noteId == 0 {
        noteId := nextNoteId;
        nextNoteId := nextNoteId + 1;
        assert Pending() == old(Pending());
      }
      var accepted := EnqueueCommand(Start(on.(noteId := noteId)));
    }

    /** `drainCommands` */
    method DrainCommands()
      requires Valid()
      modifies this`next, this`readIndex, voices
      ensures Valid() && Pending() == [] && AllNamed(Commands(old(Pending())))
      ensures Value() == Run(old(Value()), Commands(old(Pending())))
    {
      ghost var pending, events := Pending(), Commands(Pending());
      var read := readIndex;
      while read < writeIndex
        invariant readIndex <= read <= writeIndex && readIndex == old(readIndex)
        invariant AllNamed(events[..read - readIndex]) && Value() == Run(old(Value()), events[..read - readIndex])
      {
        ghost var k := read - readIndex;
        assert events[k] == Event.Command(queue[read % CommandRing.CAPACITY]);
        RunPush(old(Value()), events, k);
        ApplyCommand(queue[read % CommandRing.CAPACITY]);
        read := read + 1;
      }
      assert events[..|events|] == events;
      readIndex := read;
    }

    // ------------------------------------------------------------ rendering

    /** The bookkeeping of one frame: every voice takes a sample, then its note is looked after. */
    method RenderFrame()
      requires voices.Length == VOICE_COUNT && Inv(Value())
      modifies voices
      ensures Value() == After(old(Value()), Frame)
    {
      RatedSlots(Value());
      for i := 0 to VOICE_COUNT
        invariant forall j | 0 <= j < VOICE_COUNT ::
          voices[j] == if j < i then old(voices[j]).(env := old(voices[j]).env.Next()) else old(voices[j])
      {
        voices[i] := voices[i].(env := voices[i].env.Next());
      }
      for i := 0 to VOICE_COUNT
        invariant forall j | 0 <= j < VOICE_COUNT ::
          voices[j] == if j < i then old(voices[j]).Frame() else old(voices[j]).(env := old(voices[j]).env.Next())
      {
        LookAfter(i, old(voices[i]));
      }
      assert voices[..] == FrameAll(old(voices[..]));
    }

    /** The second loop's body. */
    method LookAfter(i: nat, ghost before: Slot)
      requires i < voices.Length && before.env.rate >= 1.0 && voices[i] == before.(env := before.env.Next())
      requires before.left == -1 || before.left > 0
      modifies voices
      ensures voices[..] == old(voices[..])[i := before.Frame()]
    {
      if voices[i].noteId == 0 {
        return;
      }
      if voices[i].left > 0 {
        voices[i] := voices[i].(left := voices[i].left - 1);
        if voices[i].left == 0 {
          voices[i] := voices[i].(env := voices[i].env.NoteOff());
          voices[i] := voices[i].(left := -1);
          voices[i] := voices[i].(releasing := true);
        }
      }
      if !voices[i].env.Active() {
        voices[i] := voices[i].(noteId := 0, left := -1, order := 0, releasing := false);
      }
    }

    /** `render`: the queue first, then the frames. */
    method Render(frames: nat)
      requires Valid()
      modifies this`next, this`readIndex, voices
      ensures Valid() && Pending() == []
      ensures AllNamed(Commands(old(Pending()))) && AllNamed(JustFrames(frames))
      ensures Value() == Run(Run(old(Value()), Commands(old(Pending()))), JustFrames(frames))
      ensures Value() == TableFrames(Run(old(Value()), Commands(old(Pending()))), frames)
    {
      DrainCommands();
      ghost var drained := Value();
      for i := 0 to frames
        invariant Valid() && Pending() == [] && Value() == Run(drained, JustFrames(frames)[..i])
      {
        RunPush(drained, JustFrames(frames), i);
        RenderFrame();
      }
      assert JustFrames(frames)[..frames] == JustFrames(frames);
      FramesAreRun(drained, frames);
    }

    /** `buildStatusSnapshotUnlocked`, as far as the note ids go */
    method BuildStatusSnapshot() returns (ids: seq<nat>)
      requires Valid()
      ensures ids == Listed(voices[..], VOICE_COUNT)
    {
      ids := [];
      for i := 0 to VOICE_COUNT
        invariant ids == Listed(voices[..], i)
      {
        if voices[i].Sounds() {
          ids := ids + [voices[i].noteId];
        }
      }
    }
  }
}
