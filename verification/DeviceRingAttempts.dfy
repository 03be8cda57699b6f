/** Why a lease attempt brings nothing: there was nothing to lease, or the producer
    got in the way of as many rounds as the caller had asked for. */
module DeviceRingAttempts {
  import opened Options
  import opened DeviceRing

  /** An attempt sees that there is nothing to lease: no frame yet, for a pair
      consumer no newer one than the one taken last or one being rewritten, or no
      usable slot within the tolerance. */
  predicate NothingThere(c: Config, s: State, l: Lessee) {
    match l.stage
    case Peeking => s.latest.None?
    case Peeked(p) =>
      p < |s.seqNo| && (s.seqNo[p] % 2 == 1 || (l.want.NextReference? && l.want.last == Some(Taken(p, s.seqNo[p]))))
    case Attempting => l.attempts > 0 && !l.want.ByTimestamp? && s.latest.None?
    case LoadingSeq(at, best) => at == c.slots && best.None?
    case _ => false
  }

  /** The producer gets in the way of a round: the newest slot is being written, or the
      slot chosen was written to since it was looked at. */
  predicate Disturbs(s: State, l: Lessee) {
    match l.stage
    case SawLatest(p) => p < |s.seqNo| && s.seqNo[p] % 2 == 1
    case Counted(p, q, _) => p < |s.seqNo| && s.seqNo[p] != q
    case _ => false
  }

  /** A round has begun and the producer has not got in its way. */
  predicate InRound(g: Stage) {
    !(g.Peeking? || g.Peeked? || g.Attempting? || g.Undoing? || g.Missed?)
  }

  /** How many rounds attempt `id` was started with. */
  ghost function Asked(c: Config, acts: seq<Action>, id: nat): nat
    requires c.Legal()
  {
    if acts == [] then 0
    else
      var before, a := acts[..|acts| - 1], acts[|acts| - 1];
      InitShape(c);
      if id !in Steps(c, Init(c), before).lessees && a.StartLease? && a.id == id then a.maxAttempts
      else Asked(c, before, id)
  }

  ghost predicate Sees(c: Config, acts: seq<Action>, id: nat)
    requires c.Legal() && acts != []
  {
    InitShape(c);
    var s := Steps(c, Init(c), acts[..|acts| - 1]);
    acts[|acts| - 1] == LesseeStep(id) && id in s.lessees && NothingThere(c, s, s.lessees[id])
  }

  ghost predicate IsDisturbed(c: Config, acts: seq<Action>, id: nat)
    requires c.Legal() && acts != []
  {
    InitShape(c);
    var s := Steps(c, Init(c), acts[..|acts| - 1]);
    acts[|acts| - 1] == LesseeStep(id) && id in s.lessees && Disturbs(s, s.lessees[id])
  }

  /** At some point of the run attempt `id` saw that there is nothing to lease. */
  ghost predicate FoundNothing(c: Config, acts: seq<Action>, id: nat)
    requires c.Legal()
  {
    acts != [] && (FoundNothing(c, acts[..|acts| - 1], id) || Sees(c, acts, id))
  }

  /** How many rounds of attempt `id` the producer got in the way of. */
  ghost function Disturbed(c: Config, acts: seq<Action>, id: nat): nat
    requires c.Legal()
  {
    if acts == [] then 0
    else Disturbed(c, acts[..|acts| - 1], id) + if IsDisturbed(c, acts, id) then 1 else 0
  }

  /** What an attempt's stage says of its rounds. */
  ghost predicate Adds(l: Lessee, asked: nat, disturbed: nat, nothing: bool) {
    && (nothing ==> l.stage.Missed?)
    && (l.stage.Missed? ==> nothing || disturbed == asked)
    && (!l.stage.Missed? ==> l.attempts + disturbed + (if InRound(l.stage) then 1 else 0) == asked)
  }

  /** In every run an attempt that ends without a lease saw that there was nothing, or
      lost every round it was given to the producer; one that brings a lease had a
      round left. Otherwise its rounds are those lost, the one under way and those
      to come. */
  lemma MissesExactly(c: Config, acts: seq<Action>, id: nat)
    requires c.Legal() && Shape(c, Init(c)) && id in Steps(c, Init(c), acts).lessees
    ensures var l := Steps(c, Init(c), acts).lessees[id];
            && (FoundNothing(c, acts, id) ==> l.stage.Missed?)
            && (l.stage.Missed? ==> FoundNothing(c, acts, id) || Disturbed(c, acts, id) == Asked(c, acts, id))
            && (!l.stage.Missed? ==>
                  l.attempts + Disturbed(c, acts, id) + (if InRound(l.stage) then 1 else 0) == Asked(c, acts, id))
  {
    RoundsAddUp(c, acts, id);
  }

  lemma {:induction false} RoundsAddUp(c: Config, acts: seq<Action>, id: nat)
    requires c.Legal() && Shape(c, Init(c))
    ensures var s := Steps(c, Init(c), acts);
            if id in s.lessees then
              Adds(s.lessees[id], Asked(c, acts, id), Disturbed(c, acts, id), FoundNothing(c, acts, id))
            else Disturbed(c, acts, id) == 0 && !FoundNothing(c, acts, id)
  {
    if acts != [] {
      var before, a := acts[..|acts| - 1], acts[|acts| - 1];
      RoundsAddUp(c, before, id);
      var s := Steps(c, Init(c), before);
      hide Steps, Shape;
      StepAdds(c, s, a, id, Asked(c, before, id), Disturbed(c, before, id), FoundNothing(c, before, id));
    }
  }

  lemma StepAdds(c: Config, s: State, a: Action, id: nat, asked: nat, disturbed: nat, nothing: bool)
    requires Shape(c, s)
    requires if id in s.lessees then Adds(s.lessees[id], asked, disturbed, nothing) else disturbed == 0 && !nothing
    ensures var t := Next(c, s, a);
            var begins := id !in s.lessees && a.StartLease? && a.id == id;
            var steps := a == LesseeStep(id) && id in s.lessees;
            if id in t.lessees then
              Adds(t.lessees[id], if begins then a.maxAttempts else asked,
                   disturbed + (if steps && Disturbs(s, s.lessees[id]) then 1 else 0),
                   nothing || (steps && NothingThere(c, s, s.lessees[id])))
            else id !in s.lessees
  {
  }
}
