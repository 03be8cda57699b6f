/** Runs of the live stereo pairer: what becomes of every frame, how many buffers
    are alive, and how the output relates to the offline merge. */
module StereoRuns {
  import opened Options
  import opened Bytes
  import opened FramePairing
  import opened StereoPairing

  // -------------------------------------------------------------------- runs

  datatype Op =
    | Push(stream: nat, entry: Entry)
    | TryPop(now: int)

  /** What became of a frame: output number `no`, or dropped by a full queue. */
  datatype Fate = Emitted(no: nat) | Dropped

  /** The history of one stream: everything pushed, what became of the frames that
      have left the queue, and which frame was handed out last. */
  datatype Track = Track(pushed: seq<Entry>, fates: seq<Fate>, shown: Option<nat>)

  /** A run: the pairer, each stream's history, the dispositions and results so
      far, whether a hold expired and whether a frame was pushed after that. */
  datatype Run = Run(p: Pairer, track0: Track, track1: Track, out: seq<Disposition>, results: seq<Pair>,
                     expired: bool, late: bool)

  function Start(): Run {
    var t := Track([], [], None);
    Run(Fresh(), t, t, [], [], false, false)
  }

  function TrackPush(c: Settings, s: Side, t: Track, e: Entry): Track {
    t.(pushed := t.pushed + [e],
       fates := if |s.queue| >= c.queueFrames then t.fates + [Dropped] else t.fates)
  }

  function TrackTake(t: Track, no: nat): Track {
    t.(fates := t.fates + [Emitted(no)], shown := Some(|t.fates|))
  }

  function Emit(r: Run, d: Disposition): Run
    requires CanTake(r.p, d)
  {
    Run(Popped(r.p, d), if d.Alone1? then r.track0 else TrackTake(r.track0, |r.out|),
        if d.Alone0? then r.track1 else TrackTake(r.track1, |r.out|), r.out + [d], r.results + [Output(r.p, d)],
        r.expired || r.p.side0.queue == [] || r.p.side1.queue == [], r.late)
  }

  function Next(c: Settings, r: Run, op: Op): Run
    requires c.queueFrames > 0
  {
    match op
    case Push(stream, e) =>
      if stream > 1 then r
      else if stream == 0 then
        r.(p := r.p.(side0 := Pushed(c, r.p.side0, e)), track0 := TrackPush(c, r.p.side0, r.track0, e),
           late := r.late || r.expired)
      else
        r.(p := r.p.(side1 := Pushed(c, r.p.side1, e)), track1 := TrackPush(c, r.p.side1, r.track1, e),
           late := r.late || r.expired)
    case TryPop(now) =>
      var choice := Choice(c, r.p, now, |r.track0.fates|, |r.track1.fates|);
      if choice.None? then r else Emit(r, choice.value)
  }

  function Runs(c: Settings, ops: seq<Op>): Run
    requires c.queueFrames > 0
  {
    if ops == [] then Start() else Next(c, Runs(c, ops[..|ops| - 1]), ops[|ops| - 1])
  }

  /** The steps of a run are what the pairer's methods do. */
  lemma StepsAreCalls(c: Settings, r: Run, now: int)
    requires c.queueFrames > 0
    ensures var choice := Choice(c, r.p, now, 0, 0);
            var s := Next(c, r, TryPop(now));
            && (choice.None? ==> s == r)
            && (choice.Some? ==> s.p == Popped(r.p, choice.value)
                                 && s.results == r.results + [Output(r.p, choice.value)])
  {
    var i, j := |r.track0.fates|, |r.track1.fates|;
    var choice := Choice(c, r.p, now, i, j);
    if choice.Some? {
      assert CanTake(r.p, choice.value);
      assert Output(r.p, choice.value) == Output(r.p, Choice(c, r.p, now, 0, 0).value);
    }
  }

  // -------------------------------------------------- what every stream keeps

  function Drops(fates: seq<Fate>): nat {
    if fates == [] then 0
    else Drops(fates[..|fates| - 1]) + if fates[|fates| - 1].Dropped? then 1 else 0
  }

  /** Buffers alive on one stream: queued, free, or behind the last result. */
  function Buffers(s: Side): nat {
    |s.queue| + |s.recycled| + if s.held.data == [] then 0 else 1
  }

  ghost predicate SideInv(c: Settings, s: Side, t: Track) {
    && |t.fates| <= |t.pushed| && s.queue == t.pushed[|t.fates|..]
    && |s.queue| <= c.queueFrames && Buffers(s) <= c.queueFrames + 1
    && s.overrun == Drops(t.fates)
    && (t.shown.None? ==> s.held == BLANK)
    && (t.shown.Some? ==> t.shown.value < |t.fates| && t.fates[t.shown.value].Emitted?
                          && s.held == t.pushed[t.shown.value])
  }

  lemma SidePushed(c: Settings, s: Side, t: Track, e: Entry)
    requires c.queueFrames > 0 && SideInv(c, s, t)
    ensures SideInv(c, Pushed(c, s, e), TrackPush(c, s, t, e))
  {
    var u := TrackPush(c, s, t, e);
    assert u.pushed[|u.fates|..] == Pushed(c, s, e).queue;
    if |s.queue| >= c.queueFrames {
      assert u.fates[..|u.fates| - 1] == t.fates;
    }
  }

  lemma SideTaken(c: Settings, s: Side, t: Track, no: nat)
    requires SideInv(c, s, t) && s.queue != []
    ensures SideInv(c, Taken(s), TrackTake(t, no))
  {
    var u := TrackTake(t, no);
    assert u.pushed[|u.fates|..] == s.queue[1..];
    assert u.fates[..|u.fates| - 1] == t.fates;
  }

  // ------------------------------------------------------- what every run keeps

  /** The frame of one stream in a disposition. */
  function IndexIn(d: Disposition, stream: nat): Option<nat> {
    if stream == 0 then if d.Alone1? then None else Some(d.i)
    else if d.Alone0? then None else Some(d.j)
  }

  function Indices(out: seq<Disposition>, stream: nat): seq<Option<nat>> {
    seq(|out|, k requires 0 <= k < |out| => IndexIn(out[k], stream))
  }

  /** Fates and outputs name each other: `indices[k]` is the frame of this stream
      in output `k`. */
  ghost predicate Linked(fates: seq<Fate>, indices: seq<Option<nat>>) {
    && (forall k: nat | k < |indices| && indices[k].Some? ::
          indices[k].value < |fates| && fates[indices[k].value] == Emitted(k))
    && (forall i: nat | i < |fates| && fates[i].Emitted? ::
          fates[i].no < |indices| && indices[fates[i].no] == Some(i))
  }

  /** Output `k` carries the frames its disposition names. */
  function ResultOf(a: seq<Entry>, b: seq<Entry>, d: Disposition, k: nat): Pair
    requires (!d.Alone1? ==> d.i < |a|) && (!d.Alone0? ==> d.j < |b|)
  {
    match d
    case Together(i, j) => Pair(k, Some(a[i]), Some(b[j]), Difference(b[j].stamp, a[i].stamp))
    case Alone0(i) => Pair(k, Some(a[i]), None, 0)
    case Alone1(j) => Pair(k, None, Some(b[j]), 0)
  }

  ghost predicate OutputOk(c: Settings, r: Run, k: nat)
    requires k < |r.out| && k < |r.results|
  {
    var d, a, b := r.out[k], r.track0.pushed, r.track1.pushed;
    && (!d.Alone1? ==> d.i < |a|) && (!d.Alone0? ==> d.j < |b|)
    && r.results[k] == ResultOf(a, b, d, k)
    && (d.Together? ==> Close(a[d.i].stamp, b[d.j].stamp, c.tolerance))
  }

  ghost predicate OutputsOk(c: Settings, r: Run) {
    && |r.out| == |r.results| == r.p.nextPairId
    && forall k: nat | k < |r.out| :: OutputOk(c, r, k)
  }

  ghost predicate Counted(r: Run) {
    && r.p.paired == Togethers(r.out)
    && r.p.side0.unpaired == |Singles0(r.out)| && r.p.side1.unpaired == |Singles1(r.out)|
    && |r.track0.fates| == r.p.paired + r.p.side0.unpaired + r.p.side0.overrun
    && |r.track1.fates| == r.p.paired + r.p.side1.unpaired + r.p.side1.overrun
  }

  ghost predicate Inv(c: Settings, r: Run) {
    && SideInv(c, r.p.side0, r.track0) && SideInv(c, r.p.side1, r.track1)
    && Linked(r.track0.fates, Indices(r.out, 0)) && Linked(r.track1.fates, Indices(r.out, 1))
    && OutputsOk(c, r) && Counted(r) && IsWorst(r.results, r.p.maxAbsSkew)
  }

  ghost predicate IsWorst(results: seq<Pair>, worst: nat) {
    && (forall x | x in results :: Abs(x.skew) <= worst)
    && (worst == 0 || exists x :: x in results && Abs(x.skew) == worst)
  }

  lemma LinkedEmit(fates: seq<Fate>, indices: seq<Option<nat>>)
    requires Linked(fates, indices)
    ensures Linked(fates + [Emitted(|indices|)], indices + [Some(|fates|)])
  {
  }

  lemma LinkedSkip(fates: seq<Fate>, indices: seq<Option<nat>>)
    requires Linked(fates, indices)
    ensures Linked(fates, indices + [None])
  {
  }

  lemma LinkedDrop(fates: seq<Fate>, indices: seq<Option<nat>>)
    requires Linked(fates, indices)
    ensures Linked(fates + [Dropped], indices)
  {
  }

  lemma WorstGrows(results: seq<Pair>, worst: nat, x: Pair)
    requires IsWorst(results, worst)
    ensures IsWorst(results + [x], Larger(worst, Abs(x.skew)))
  {
    assert x in results + [x];
    assert forall y :: y in results ==> y in results + [x];
  }

  lemma {:induction false} CountAppend(out: seq<Disposition>, d: Disposition)
    ensures Togethers(out + [d]) == Togethers(out) + if d.Together? then 1 else 0
    ensures |Singles0(out + [d])| == |Singles0(out)| + if d.Alone0? then 1 else 0
    ensures |Singles1(out + [d])| == |Singles1(out)| + if d.Alone1? then 1 else 0
  {
    if out != [] {
      assert (out + [d])[1..] == out[1..] + [d];
      CountAppend(out[1..], d);
    }
  }

  lemma OutputsGrow(c: Settings, r: Run, s: Run)
    requires OutputsOk(c, r) && r.track0.pushed <= s.track0.pushed && r.track1.pushed <= s.track1.pushed
    requires s.out == r.out && s.results == r.results && s.p.nextPairId == r.p.nextPairId
    ensures OutputsOk(c, s)
  {
    forall k: nat | k < |s.out| ensures OutputOk(c, s, k) {
      assert OutputOk(c, r, k);
    }
  }

  lemma PushKeeps(c: Settings, r: Run, stream: nat, e: Entry)
    requires c.queueFrames > 0 && Inv(c, r)
    ensures Inv(c, Next(c, r, Push(stream, e)))
  {
    hide OutputsOk, Linked, IsWorst, Togethers, Singles0, Singles1;
    var s := Next(c, r, Push(stream, e));
    OutputsGrow(c, r, s);
    if stream == 0 {
      SidePushed(c, r.p.side0, r.track0, e);
      LinkedDrop(r.track0.fates, Indices(r.out, 0));
    } else if stream == 1 {
      SidePushed(c, r.p.side1, r.track1, e);
      LinkedDrop(r.track1.fates, Indices(r.out, 1));
    }
  }

  lemma EmitOutput(c: Settings, r: Run, d: Disposition)
    requires Inv(c, r) && CanTake(r.p, d)
    requires (!d.Alone1? ==> d.i == |r.track0.fates|) && (!d.Alone0? ==> d.j == |r.track1.fates|)
    requires d.Together? ==> Close(r.p.side0.queue[0].stamp, r.p.side1.queue[0].stamp, c.tolerance)
    ensures OutputsOk(c, Emit(r, d))
  {
    var s := Emit(r, d);
    forall k: nat | k < |s.out| ensures OutputOk(c, s, k) {
      if k < |r.out| {
        assert OutputOk(c, r, k);
      }
    }
  }

  lemma EmitKeeps(c: Settings, r: Run, d: Disposition)
    requires Inv(c, r) && CanTake(r.p, d)
    requires (!d.Alone1? ==> d.i == |r.track0.fates|) && (!d.Alone0? ==> d.j == |r.track1.fates|)
    requires d.Together? ==> Close(r.p.side0.queue[0].stamp, r.p.side1.queue[0].stamp, c.tolerance)
    ensures Inv(c, Emit(r, d))
  {
    hide OutputsOk, Linked, IsWorst;
    var s := Emit(r, d);
    EmitOutput(c, r, d);
    CountAppend(r.out, d);
    WorstGrows(r.results, r.p.maxAbsSkew, Output(r.p, d));
    assert Indices(s.out, 0) == Indices(r.out, 0) + [IndexIn(d, 0)];
    assert Indices(s.out, 1) == Indices(r.out, 1) + [IndexIn(d, 1)];
    LinkTakes(r, d);
    if !d.Alone1? { SideTaken(c, r.p.side0, r.track0, |r.out|); }
    if !d.Alone0? { SideTaken(c, r.p.side1, r.track1, |r.out|); }
  }

  lemma LinkTakes(r: Run, d: Disposition)
    requires Linked(r.track0.fates, Indices(r.out, 0)) && Linked(r.track1.fates, Indices(r.out, 1)) && CanTake(r.p, d)
    requires (!d.Alone1? ==> d.i == |r.track0.fates|) && (!d.Alone0? ==> d.j == |r.track1.fates|)
    ensures Linked(Emit(r, d).track0.fates, Indices(r.out, 0) + [IndexIn(d, 0)])
    ensures Linked(Emit(r, d).track1.fates, Indices(r.out, 1) + [IndexIn(d, 1)])
  {
    LinkedEmit(r.track0.fates, Indices(r.out, 0));
    LinkedSkip(r.track0.fates, Indices(r.out, 0));
    LinkedEmit(r.track1.fates, Indices(r.out, 1));
    LinkedSkip(r.track1.fates, Indices(r.out, 1));
  }

  lemma {:induction false} RunsInv(c: Settings, ops: seq<Op>)
    requires c.queueFrames > 0
    ensures Inv(c, Runs(c, ops))
  {
    if ops != [] {
      var r := Runs(c, ops[..|ops| - 1]);
      RunsInv(c, ops[..|ops| - 1]);
      match ops[|ops| - 1]
      case Push(stream, e) => PushKeeps(c, r, stream, e);
      case TryPop(now) =>
        var choice := Choice(c, r.p, now, |r.track0.fates|, |r.track1.fates|);
        if choice.Some? { EmitKeeps(c, r, choice.value); }
    }
  }

  // ------------------------------------------------------------ main theorems

  /** No frame is lost track of and memory is bounded: on each stream everything
      pushed was paired, handed out alone, dropped by a full queue or is still
      queued, and at most one buffer more than the queue holds is alive. */
  lemma {:induction false} EveryFrameAccounted(c: Settings, ops: seq<Op>)
    requires c.queueFrames > 0
    ensures var r := Runs(c, ops);
            && |r.track0.pushed| == r.p.paired + r.p.side0.unpaired + r.p.side0.overrun + |r.p.side0.queue|
            && |r.track1.pushed| == r.p.paired + r.p.side1.unpaired + r.p.side1.overrun + |r.p.side1.queue|
            && Buffers(r.p.side0) <= c.queueFrames + 1 && Buffers(r.p.side1) <= c.queueFrames + 1
  {
    RunsInv(c, ops);
  }

  /** In every run a pop brings a result exactly if both streams have a frame queued or
      the oldest frame of the only stream that has one is `hold` old; it is the pair of
      the two heads, or the earlier or only one alone. */
  lemma LoneFramesHaveWaited(c: Settings, ops: seq<Op>, now: int)
    requires c.queueFrames > 0
    ensures var r, s := Runs(c, ops), Runs(c, ops + [TryPop(now)]);
            var a, b := r.track0.pushed, r.track1.pushed;
            && |r.track0.fates| <= |a| && |r.track1.fates| <= |b|
            && var x, y := a[|r.track0.fates|..], b[|r.track1.fates|..];
               if PopsNow(c, x, y, now) then
                 |s.results| == |r.results| + 1 && s.results[..|r.results|] == r.results
                 && RightResult(c, x, y, s.results[|r.results|]) && s.results[|r.results|].pairId == |r.results|
               else s == r
  {
    RunsInv(c, ops);
    var r := Runs(c, ops);
    assert (ops + [TryPop(now)])[..|ops|] == ops;
    assert r.p.nextPairId == |r.results|;
    hide Inv, Output, RightResult, PopsNow;
    ChoiceIsRight(c, r.p, now, |r.track0.fates|, |r.track1.fates|);
  }

  function TrackOf(r: Run, stream: nat): Track {
    if stream == 0 then r.track0 else r.track1
  }

  function FrameIn(p: Pair, stream: nat): Option<Entry> {
    if stream == 0 then p.frame0 else p.frame1
  }

  /** Every frame that has left its stream's queue came out in exactly one result,
      unless the full queue dropped it, and then in none. */
  lemma EveryFrameOnce(c: Settings, ops: seq<Op>, stream: nat, i: nat)
    requires c.queueFrames > 0 && stream < 2 && i < |TrackOf(Runs(c, ops), stream).fates|
    ensures var r := Runs(c, ops);
            var t := TrackOf(r, stream);
            && i < |t.pushed| && |r.results| == |r.out|
            && (t.fates[i].Emitted? ==>
                  && t.fates[i].no < |r.out| && FrameIn(r.results[t.fates[i].no], stream) == Some(t.pushed[i])
                  && forall m: nat | m < |r.out| :: IndexIn(r.out[m], stream) == Some(i) <==> m == t.fates[i].no)
            && (t.fates[i].Dropped? ==> forall m: nat | m < |r.out| :: IndexIn(r.out[m], stream) != Some(i))
  {
    RunsInv(c, ops);
    var r := Runs(c, ops);
    var t := TrackOf(r, stream);
    forall m: nat | m < |r.out| && IndexIn(r.out[m], stream) == Some(i) ensures t.fates[i] == Emitted(m) {
      assert Indices(r.out, stream)[m] == Some(i);
    }
    if t.fates[i].Emitted? {
      assert Indices(r.out, stream)[t.fates[i].no] == Some(i);
      assert OutputOk(c, r, t.fates[i].no);
    }
  }

  // ------------------------------------------------- the offline merge, live

  function Stamps(entries: seq<Entry>): seq<Stamp> {
    seq(|entries|, k requires 0 <= k < |entries| => entries[k].stamp)
  }

  /** So far `r` has dropped nothing and pushed nothing after giving up on a frame,
      and `a` and `b` are the whole streams: what was pushed and, if nothing was
      given up on, anything that may still come. */
  ghost predicate OnTrack(r: Run, a: seq<Stamp>, b: seq<Stamp>) {
    && Stamps(r.track0.pushed) <= a && Stamps(r.track1.pushed) <= b
    && r.p.side0.overrun == 0 && r.p.side1.overrun == 0 && !r.late
    && (r.expired ==> a == Stamps(r.track0.pushed) && b == Stamps(r.track1.pushed))
  }

  lemma OnTrackBefore(c: Settings, r: Run, op: Op, a: seq<Stamp>, b: seq<Stamp>)
    requires c.queueFrames > 0 && OnTrack(Next(c, r, op), a, b)
    ensures OnTrack(r, a, b)
  {
    var s := Next(c, r, op);
    assert r.track0.pushed <= s.track0.pushed && r.track1.pushed <= s.track1.pushed;
    assert Stamps(r.track0.pushed) <= Stamps(s.track0.pushed);
    assert Stamps(r.track1.pushed) <= Stamps(s.track1.pushed);
  }

  /** try_pop's choice is the merge's next disposition of the whole streams. */
  lemma ChoiceIsHead(c: Settings, r: Run, now: int, a: seq<Stamp>, b: seq<Stamp>)
    requires SideInv(c, r.p.side0, r.track0) && SideInv(c, r.p.side1, r.track1)
    requires var i, j := |r.track0.fates|, |r.track1.fates|;
             Choice(c, r.p, now, i, j).Some? && OnTrack(Emit(r, Choice(c, r.p, now, i, j).value), a, b)
    ensures var i, j := |r.track0.fates|, |r.track1.fates|;
            && i <= |a| && j <= |b| && (i < |a| || j < |b|)
            && Choice(c, r.p, now, i, j) == Some(Head(a, b, c.tolerance, i, j))
  {
    var i, j := |r.track0.fates|, |r.track1.fates|;
    if r.p.side0.queue != [] { assert Stamps(r.track0.pushed)[i] == a[i] == r.p.side0.queue[0].stamp; }
    if r.p.side1.queue != [] { assert Stamps(r.track1.pushed)[j] == b[j] == r.p.side1.queue[0].stamp; }
  }

  /** Where a run is in the merge of the whole streams. */
  ghost predicate Follows(r: Run, tolerance: nat, a: seq<Stamp>, b: seq<Stamp>) {
    && |r.track0.fates| <= |a| && |r.track1.fates| <= |b|
    && Merge(a, b, tolerance, 0, 0) == r.out + Merge(a, b, tolerance, |r.track0.fates|, |r.track1.fates|)
  }

  lemma EmitFollows(c: Settings, r: Run, a: seq<Stamp>, b: seq<Stamp>, d: Disposition)
    requires Follows(r, c.tolerance, a, b) && CanTake(r.p, d)
    requires |r.track0.fates| < |a| || |r.track1.fates| < |b|
    requires d == Head(a, b, c.tolerance, |r.track0.fates|, |r.track1.fates|)
    ensures Follows(Emit(r, d), c.tolerance, a, b)
  {
    hide Merge;
    var i, j := |r.track0.fates|, |r.track1.fates|;
    MergeStep(a, b, c.tolerance, i, j);
    var rest := Merge(a, b, c.tolerance, i + Step0(d), j + Step1(d));
    assert Merge(a, b, c.tolerance, i, j) == [d] + rest;
    Append(r.out, d, rest);
  }

  lemma {:induction false} FollowsMerge(c: Settings, ops: seq<Op>, a: seq<Stamp>, b: seq<Stamp>)
    requires c.queueFrames > 0 && OnTrack(Runs(c, ops), a, b)
    ensures Follows(Runs(c, ops), c.tolerance, a, b)
  {
    if ops != [] {
      var before := ops[..|ops| - 1];
      var op := ops[|ops| - 1];
      var r := Runs(c, before);
      RunsInv(c, before);
      OnTrackBefore(c, r, op, a, b);
      FollowsMerge(c, before, a, b);
      match op
      case Push(_, _) => PushOverran(c, r, op);
      case TryPop(now) =>
        var i, j := |r.track0.fates|, |r.track1.fates|;
        if Choice(c, r.p, now, i, j).Some? {
          ChoiceIsHead(c, r, now, a, b);
          EmitFollows(c, r, a, b, Head(a, b, c.tolerance, i, j));
        }
    } else {
      assert Merge(a, b, c.tolerance, 0, 0) == Start().out + Merge(a, b, c.tolerance, 0, 0);
    }
  }

  /** A push that drops nothing leaves the fates alone. */
  lemma PushOverran(c: Settings, r: Run, op: Op)
    requires c.queueFrames > 0 && op.Push?
    ensures var s := Next(c, r, op);
            s.p.side0.overrun == 0 && s.p.side1.overrun == 0 ==>
              s.track0.fates == r.track0.fates && s.track1.fates == r.track1.fates && s.out == r.out
  {
  }

  /** However pushes and pops interleave, as long as no frame is dropped and none
      is given up on, what has come out is a prefix of the offline merge of the
      two full streams, whatever is still to come: the same pairs, the same
      singles, in the same order, and each result carries those very frames. */
  lemma LiveIsOfflinePrefix(c: Settings, ops: seq<Op>, a: seq<Stamp>, b: seq<Stamp>)
    requires c.queueFrames > 0
    requires var r := Runs(c, ops);
             && Stamps(r.track0.pushed) <= a && Stamps(r.track1.pushed) <= b
             && r.p.side0.overrun == 0 && r.p.side1.overrun == 0 && !r.expired
    ensures var r := Runs(c, ops);
            && r.out <= Merge(a, b, c.tolerance, 0, 0)
            && OutputsOk(c, r)
  {
    NotLate(c, ops);
    RunsInv(c, ops);
    FollowsMerge(c, ops, a, b);
  }

  lemma {:induction false} NotLate(c: Settings, ops: seq<Op>)
    requires c.queueFrames > 0 && !Runs(c, ops).expired
    ensures !Runs(c, ops).late
  {
    if ops != [] { NotLate(c, ops[..|ops| - 1]); }
  }

  /** When both streams have ended and the consumer has drained the queues, giving
      up on frames only then, the live pairer has done exactly what the offline
      merge does. */
  lemma DrainedIsOffline(c: Settings, ops: seq<Op>)
    requires c.queueFrames > 0
    requires var r := Runs(c, ops);
             && r.p.side0.overrun == 0 && r.p.side1.overrun == 0 && !r.late
             && r.p.side0.queue == [] && r.p.side1.queue == []
    ensures var r := Runs(c, ops);
            && r.out == Merge(Stamps(r.track0.pushed), Stamps(r.track1.pushed), c.tolerance, 0, 0)
            && OutputsOk(c, r)
  {
    RunsInv(c, ops);
    var r := Runs(c, ops);
    var a, b := Stamps(r.track0.pushed), Stamps(r.track1.pushed);
    FollowsMerge(c, ops, a, b);
    MergeOver(a, b, c.tolerance);
  }

  /** With the tolerance under half a frame period, every pair made live is a pair
      the offline merge of the full streams makes, even if frames were dropped or
      given up on. */
  lemma LivePairsAreOfflinePairs(c: Settings, ops: seq<Op>, a: seq<Stamp>, b: seq<Stamp>, k: nat)
    requires c.queueFrames > 0 && Spaced(a, c.tolerance) && Spaced(b, c.tolerance)
    requires var r := Runs(c, ops);
             && Stamps(r.track0.pushed) <= a && Stamps(r.track1.pushed) <= b
             && k < |r.out| && r.out[k].Together?
    ensures var r := Runs(c, ops);
            (r.out[k].i, r.out[k].j) in IndexPairs(PairsFrom(a, b, c.tolerance, 0, 0, 0))
  {
    RunsInv(c, ops);
    var r := Runs(c, ops);
    var d := r.out[k];
    assert OutputOk(c, r, k);
    assert Stamps(r.track0.pushed)[d.i] == a[d.i] && Stamps(r.track1.pushed)[d.j] == b[d.j];
    assert (d.i, d.j) in ClosePairs(a, b, c.tolerance);
    SpacedMergeFindsAll(a, b, c.tolerance);
  }
}
