/** What one camera's writer still does once a write has failed, over every run. */
module StreamFailures {
  import opened StreamWriting
  import opened StreamRuns

  /** Frames accepted and the one being pushed. */
  ghost function Lane(r: Run): (frames: seq<Frame>)
    ensures |frames| == |r.accepted| + if r.producer.Idle? then 0 else 1
  {
    r.accepted + if r.producer.Idle? then [] else [r.producer.frame]
  }

  /** Those the writer has not tried to write yet. */
  ghost function Outstanding(r: Run): seq<Frame>
    requires Tried(r) <= |r.accepted|
  {
    Lane(r)[Tried(r)..]
  }

  lemma FailedStep(r: Run, a: Action)
    requires Shape(r) && r.s.failed
    ensures var u := Next(r, a);
            && u.s.failed && Lane(u) == Lane(r) && Tried(r) <= Tried(u)
            && u.pushes - r.pushes == u.s.drops - r.s.drops
            && (!r.producer.Idle? || u.producer.Idle?)
  {
    hide WroteFrame;
    if a.WriterStep? && r.writer.Writing? { WroteKeeps(r.s, r.writer.slot, a.landed); }
  }

  /** Between two states of a run with a failed write behind them. */
  lemma {:induction false} FailedRun(frameBytes: nat, staging: nat, acts: seq<Action>, more: seq<Action>)
    requires staging > 0 && Runs(frameBytes, staging, acts).s.failed
    ensures var r, u := Runs(frameBytes, staging, acts), Runs(frameBytes, staging, acts + more);
            && u.s.failed && Lane(u) == Lane(r) && Tried(r) <= Tried(u)
            && u.pushes - r.pushes == u.s.drops - r.s.drops
  {
    hide Runs, Lane, Next;
    if more == [] {
      assert acts + more == acts;
    } else {
      var most, a := more[..|more| - 1], more[|more| - 1];
      FailedRun(frameBytes, staging, acts, most);
      assert acts + more == acts + most + [a];
      RunsOn(frameBytes, staging, acts + most, a);
      FailedStep(Runs(frameBytes, staging, acts + most), a);
    }
  }

  lemma Remaining(r: Run)
    requires Inv(r)
    ensures Tried(r) <= |r.accepted| && |Outstanding(r)| == r.s.count - if r.writer.Advancing? then 1 else 0
    ensures r.writer.Exited? ==> |Outstanding(r)| == if r.late then 1 else 0
  {
  }

  /** Once a write has failed, every push begun later is dropped, and what the writer
      has tried since and what it has yet to try are together the frames that were
      staged or being copied at that point: the `count` of them once the failed slot
      is released. A writer that has left has tried them all but for a late push. */
  lemma AfterFailure(frameBytes: nat, staging: nat, acts: seq<Action>, more: seq<Action>)
    requires staging > 0 && Runs(frameBytes, staging, acts).s.failed
    ensures var r, u := Runs(frameBytes, staging, acts), Runs(frameBytes, staging, acts + more);
            && u.pushes - r.pushes == u.s.drops - r.s.drops
            && Tried(r) <= Tried(u) <= |u.accepted| && Tried(r) <= |r.accepted|
            && u.accepted[Tried(r)..Tried(u)] + Outstanding(u) == Outstanding(r)
            && |Outstanding(r)| == r.s.count - (if r.writer.Advancing? then 1 else 0)
            && (u.writer.Exited? ==> |Outstanding(u)| == if u.late then 1 else 0)
  {
    var r, u := Runs(frameBytes, staging, acts), Runs(frameBytes, staging, acts + more);
    RunsInv(frameBytes, staging, acts);
    RunsInv(frameBytes, staging, acts + more);
    FailedRun(frameBytes, staging, acts, more);
    hide Runs, Inv;
    Remaining(r);
    Remaining(u);
    SameLane(r, u);
  }

  lemma SameLane(r: Run, u: Run)
    requires Lane(u) == Lane(r) && Tried(r) <= Tried(u) <= |u.accepted| && Tried(r) <= |r.accepted|
    ensures u.accepted[Tried(r)..Tried(u)] + Outstanding(u) == Outstanding(r)
  {
    assert u.accepted[Tried(r)..Tried(u)] == Lane(u)[Tried(r)..Tried(u)];
  }

  // ------------------------------------------------- when it does stop writing

  /** Steps a push in progress has yet to take. */
  ghost function ToPublish(p: Producer): nat {
    match p
    case Idle => 0
    case Ready(_, _) => 1
    case Copying(_, frame, at) => if at < |frame.data| then |frame.data| - at + 2 else 2
  }

  ghost function ToWrite(w: Writer): nat {
    match w
    case Writing(_) => 0
    case Waiting => 1
    case _ => 2
  }

  /** The step that brings the next write nearer: the producer's as long as nothing is
      published, else the writer's. */
  ghost function Helpful(r: Run): Action {
    if r.writer.Waiting? && r.s.published == 0 then ProducerStep else WriterStep(All)
  }

  lemma Nearer(r: Run)
    requires Inv(r) && !r.writer.Exited? && !r.writer.Writing? && Outstanding(r) != []
    ensures var u := Next(r, Helpful(r));
            && !u.writer.Exited? && Tried(u) == Tried(r) && Lane(u) == Lane(r)
            && (ToPublish(u.producer) < ToPublish(r.producer)
                || (u.producer == r.producer && ToWrite(u.writer) < ToWrite(r.writer)))
  {
    Remaining(r);
    hide StagedOk, FilesOk, CountsOk, Slot;
  }

  /** A frame the writer has not tried can always be reached, whatever has failed. */
  lemma {:induction false} Reaches(frameBytes: nat, staging: nat, acts: seq<Action>) returns (more: seq<Action>)
    requires staging > 0
    requires var r := Runs(frameBytes, staging, acts); Tried(r) <= |r.accepted| && Outstanding(r) != []
    requires !Runs(frameBytes, staging, acts).writer.Exited?
    ensures Tried(Runs(frameBytes, staging, acts + more)) > Tried(Runs(frameBytes, staging, acts))
    decreases ToPublish(Runs(frameBytes, staging, acts).producer), ToWrite(Runs(frameBytes, staging, acts).writer)
  {
    hide Runs, Inv, Lane;
    var r := Runs(frameBytes, staging, acts);
    var a := Helpful(r);
    RunsOn(frameBytes, staging, acts, a);
    if r.writer.Writing? {
      more := [a];
    } else {
      RunsInv(frameBytes, staging, acts);
      Nearer(r);
      hide Next;
      RunsInv(frameBytes, staging, acts + [a]);
      Remaining(Runs(frameBytes, staging, acts + [a]));
      var rest := Reaches(frameBytes, staging, acts + [a]);
      more := [a] + rest;
      assert acts + more == acts + [a] + rest;
    }
  }

  /** From a failed write on the writer tries nothing more, whatever happens, exactly if
      nothing was staged or being copied once the failed slot was released, or it had
      left. */
  lemma StopsWritingExactly(frameBytes: nat, staging: nat, acts: seq<Action>)
    requires staging > 0
    requires var r := Runs(frameBytes, staging, acts); r.s.failed && !r.writer.Advancing?
    ensures var r := Runs(frameBytes, staging, acts);
            (forall more :: Tried(Runs(frameBytes, staging, acts + more)) == Tried(r))
            <==> r.s.count == 0 || r.writer.Exited?
  {
    var r := Runs(frameBytes, staging, acts);
    RunsInv(frameBytes, staging, acts);
    Remaining(r);
    if r.s.count == 0 {
      forall more ensures Tried(Runs(frameBytes, staging, acts + more)) == Tried(r) {
        AfterFailure(frameBytes, staging, acts, more);
      }
    } else if r.writer.Exited? {
      forall more ensures Tried(Runs(frameBytes, staging, acts + more)) == Tried(r) {
        StaysOut(frameBytes, staging, acts, more);
      }
    } else {
      hide Inv, Lane;
      var more := Reaches(frameBytes, staging, acts);
    }
  }

  lemma {:induction false} StaysOut(frameBytes: nat, staging: nat, acts: seq<Action>, more: seq<Action>)
    requires staging > 0 && Runs(frameBytes, staging, acts).writer.Exited?
    ensures var u := Runs(frameBytes, staging, acts + more);
            u.writer.Exited? && Tried(u) == Tried(Runs(frameBytes, staging, acts))
  {
    hide Runs;
    if more == [] {
      assert acts + more == acts;
    } else {
      var most, a := more[..|more| - 1], more[|more| - 1];
      StaysOut(frameBytes, staging, acts, most);
      assert acts + more == acts + most + [a];
      RunsOn(frameBytes, staging, acts + most, a);
    }
  }
}
