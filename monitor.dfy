/**
  The frame loop of the drowsiness detector, with its two pieces of mutable
  state (FRAME_COUNTER and ALARM_ON) held in one object.

  Each method updates the fields step by step, as the loop body does, and is
  proved against the pure machine of module Debounce: after any sequence of
  faces the object holds exactly Debounce.Run of the faces' combined EARs,
  and it has started exactly Debounce.TriggerCount playback threads (or none
  when no alarm sound is configured).

  Frames arrive as the faces detected in them, each given by the landmark
  distances of its two eyes; detection and landmarking are not modelled.
 */
module Monitor {
  import opened EyeGeometry
  import Debounce

  /** The combined EARs of the faces of one frame, in detection order. */
  function FaceEars(faces: seq<Face>): (ears: seq<Ear>)
    ensures |ears| == |faces|
    ensures forall i :: 0 <= i < |faces| ==> ears[i] == FaceEar(faces[i])
  {
    if faces == [] then []
    else FaceEars(faces[..|faces| - 1]) + [FaceEar(faces[|faces| - 1])]
  }

  /** Processing one more face of a frame is one more step of the machine. */
  lemma FrameStep(s: Debounce.State, faces: seq<Face>, i: nat)
    requires i < |faces|
    ensures Debounce.Run(s, FaceEars(faces[..i + 1]))
              == Debounce.Step(Debounce.Run(s, FaceEars(faces[..i])), FaceEar(faces[i])).next
    ensures Debounce.TriggerCount(s, FaceEars(faces[..i + 1]))
              == Debounce.TriggerCount(s, FaceEars(faces[..i]))
                 + (if Debounce.Step(Debounce.Run(s, FaceEars(faces[..i])), FaceEar(faces[i])).trigger
                    then 1 else 0)
  {
    assert faces[..i + 1][..i] == faces[..i];
    assert FaceEars(faces[..i + 1]) == FaceEars(faces[..i]) + [FaceEar(faces[i])];
    Debounce.RunAppend(s, FaceEars(faces[..i]), [FaceEar(faces[i])]);
  }

  /** A face with a degenerate eye acts as an open-eye face: its non-finite
      EAR fails the threshold test, so the counter and the alarm are reset
      and nothing is triggered. */
  lemma DegenerateFaceResets(s: Debounce.State, f: Face)
    requires Degenerate(f.left) || Degenerate(f.right)
    ensures Debounce.Step(s, FaceEar(f)).next == Debounce.Initial
    ensures !Debounce.Step(s, FaceEar(f)).trigger
  {
    DegenerateFaceNeverBelow(f, Debounce.EyeArThresh);
  }

  /** No face was detected in any frame. */
  predicate NoFaces(frames: seq<seq<Face>>) {
    forall k :: 0 <= k < |frames| ==> frames[k] == []
  }

  /** The combined EARs of a stream of frames: the faces of the first frame,
      in detection order, then those of the later frames. */
  function StreamEars(frames: seq<seq<Face>>): seq<Ear>
    decreases |frames|
  {
    if frames == [] then [] else FaceEars(frames[0]) + StreamEars(frames[1..])
  }

  /** The machine is fed nothing over a stream exactly when no frame held a
      face. */
  lemma {:induction false} NoFacesFeedNothing(frames: seq<seq<Face>>)
    ensures StreamEars(frames) == [] <==> NoFaces(frames)
    decreases |frames|
  {
    if frames != [] {
      NoFacesFeedNothing(frames[1..]);
      assert forall k :: 0 < k < |frames| ==> frames[1..][k - 1] == frames[k];
    }
  }

  /** A frame appended to a stream is fed after every frame before it. */
  lemma {:induction false} StreamEarsAppend(frames: seq<seq<Face>>, frame: seq<Face>)
    ensures StreamEars(frames + [frame]) == StreamEars(frames) + FaceEars(frame)
    decreases |frames|
  {
    if frames == [] {
      assert [frame][1..] == [];
    } else {
      assert (frames + [frame])[1..] == frames[1..] + [frame];
      StreamEarsAppend(frames[1..], frame);
    }
  }

  /** Processing one more frame runs the machine over that frame's faces. */
  lemma StreamStep(s: Debounce.State, frames: seq<seq<Face>>, k: nat)
    requires k < |frames|
    ensures Debounce.Run(s, StreamEars(frames[..k + 1]))
              == Debounce.Run(Debounce.Run(s, StreamEars(frames[..k])), FaceEars(frames[k]))
    ensures Debounce.TriggerCount(s, StreamEars(frames[..k + 1]))
              == Debounce.TriggerCount(s, StreamEars(frames[..k]))
                 + Debounce.TriggerCount(Debounce.Run(s, StreamEars(frames[..k])), FaceEars(frames[k]))
  {
    assert frames[..k + 1] == frames[..k] + [frames[k]];
    StreamEarsAppend(frames[..k], frames[k]);
    Debounce.RunAppend(s, StreamEars(frames[..k]), FaceEars(frames[k]));
  }

  /** A frame with no detected face feeds nothing to the state machine: the
      counter and the alarm flag carry over from the previous frame. */
  lemma {:induction false} EmptyFrameCarriesOver(s: Debounce.State, frames: seq<seq<Face>>)
    ensures Debounce.Run(s, FaceEars([])) == s && Debounce.TriggerCount(s, FaceEars([])) == 0
    ensures Debounce.Run(s, StreamEars(frames + [[]])) == Debounce.Run(s, StreamEars(frames))
    ensures Debounce.TriggerCount(s, StreamEars(frames + [[]])) == Debounce.TriggerCount(s, StreamEars(frames))
  {
    StreamEarsAppend(frames, []);
    assert StreamEars(frames) + FaceEars([]) == StreamEars(frames);
  }

  class DrowsinessMonitor {
    /** FRAME_COUNTER: closed-eye faces in a row. */
    var frameCounter: nat
    /** ALARM_ON: whether the current episode has been alarmed. */
    var alarmOn: bool
    /** The --alarm option: the sound to play, "" for none. */
    const alarmPath: string

    /** The abstract state of the object. */
    function Current(): Debounce.State
      reads this
    {
      Debounce.State(frameCounter, alarmOn)
    }

    /** The object is always in a reachable state of the machine. */
    ghost predicate Valid()
      reads this
    {
      Debounce.Inv(Current())
    }

    /** Start-up: counter 0, alarm off. */
    constructor (alarmPath: string)
      ensures Valid() && Current() == Debounce.Initial
      ensures this.alarmPath == alarmPath
    {
      frameCounter := 0;
      alarmOn := false;
      this.alarmPath := alarmPath;
    }

    /** The update for one face with combined EAR `ear`. `trigger` is the
        arming of the alarm, `playback` whether the sound thread is started,
        `alert` whether the alert text is drawn for this face. */
    method Step(ear: Ear) returns (trigger: bool, playback: bool, alert: bool)
      requires Valid()
      modifies this
      ensures Valid()
      ensures Current() == Debounce.Step(old(Current()), ear).next
      ensures trigger == Debounce.Step(old(Current()), ear).trigger
      ensures alert == Debounce.Step(old(Current()), ear).alert
      ensures playback == Debounce.Playback(Debounce.Step(old(Current()), ear), alarmPath)
      ensures playback ==> trigger
    {
      trigger, playback, alert := false, false, false;
      if Below(ear, Debounce.EyeArThresh) {
        frameCounter := frameCounter + 1;
        if frameCounter >= Debounce.EyeArConsecFrames {
          if !alarmOn {
            alarmOn := true;
            trigger := true;
            if alarmPath != "" {
              playback := true;
            }
          }
          alert := true;
        }
      } else {
        frameCounter := 0;
        alarmOn := false;
      }
    }

    /** The loop over the faces detected in one frame, in detection order.
        All faces share the one counter, so the state after the frame is the
        machine run over every face's EAR in turn. */
    method ProcessFrame(faces: seq<Face>) returns (triggers: nat, playbacks: nat)
      requires Valid()
      modifies this
      ensures Valid()
      ensures Current() == Debounce.Run(old(Current()), FaceEars(faces))
      ensures triggers == Debounce.TriggerCount(old(Current()), FaceEars(faces))
      ensures playbacks == Debounce.Threads(alarmPath, triggers)
    {
      ghost var s0 := Current();
      triggers, playbacks := 0, 0;
      var i := 0;
      while i < |faces|
        invariant 0 <= i <= |faces|
        invariant Valid()
        invariant Current() == Debounce.Run(s0, FaceEars(faces[..i]))
        invariant triggers == Debounce.TriggerCount(s0, FaceEars(faces[..i]))
        invariant playbacks == Debounce.Threads(alarmPath, triggers)
      {
        var leftEar := EyeAspectRatio(faces[i].left);
        var rightEar := EyeAspectRatio(faces[i].right);
        var ear := CombinedEar(leftEar, rightEar);
        FrameStep(s0, faces, i);
        var trigger, playback, alert := Step(ear);
        if trigger {
          triggers := triggers + 1;
        }
        if playback {
          playbacks := playbacks + 1;
        }
        i := i + 1;
      }
      assert faces[..i] == faces;
    }

    /** The outer loop over a stream of frames (the session ends when the
        stream does). */
    method ProcessStream(frames: seq<seq<Face>>) returns (triggers: nat, playbacks: nat)
      requires Valid()
      modifies this
      ensures Valid()
      ensures Current() == Debounce.Run(old(Current()), StreamEars(frames))
      ensures triggers == Debounce.TriggerCount(old(Current()), StreamEars(frames))
      ensures playbacks == Debounce.Threads(alarmPath, triggers)
    {
      ghost var s0 := Current();
      triggers, playbacks := 0, 0;
      var k := 0;
      while k < |frames|
        invariant 0 <= k <= |frames|
        invariant Valid()
        invariant Current() == Debounce.Run(s0, StreamEars(frames[..k]))
        invariant triggers == Debounce.TriggerCount(s0, StreamEars(frames[..k]))
        invariant playbacks == Debounce.Threads(alarmPath, triggers)
      {
        StreamStep(s0, frames, k);
        var t, p := ProcessFrame(frames[k]);
        triggers, playbacks := triggers + t, playbacks + p;
        k := k + 1;
      }
      assert frames[..k] == frames;
    }
  }
}
