/**
 * The last settlements of a running campaign when their transactions overlap. Each writes
 * its own recipient, then looks whether anybody is still open, then commits; what another
 * has written shows only once that one has committed, and no row is locked to wait for it.
 */
module CampaignOverlap {

  /** Of one settlement. `drained` is what it saw: nobody open but those already committed. */
  datatype Phase = Idle | Written | Looked(drained: bool) | Committed(drained: bool)

  datatype Step = Write(i: nat) | Look(i: nat) | Commit(i: nat)

  predicate OthersCommitted(s: seq<Phase>, i: nat) {
    forall j :: 0 <= j < |s| && j != i ==> s[j].Committed?
  }

  function Apply(s: seq<Phase>, e: Step): seq<Phase> {
    if e.i >= |s| then s
    else match e
      case Write(i) => if s[i].Idle? then s[i := Written] else s
      case Look(i) => if s[i].Written? then s[i := Looked(OthersCommitted(s, i))] else s
      case Commit(i) => if s[i].Looked? then s[i := Committed(s[i].drained)] else s
  }

  function Run(s: seq<Phase>, steps: seq<Step>): (z: seq<Phase>)
    ensures |z| == |s|
    decreases |steps|
  {
    if steps == [] then s else Apply(Run(s, steps[..|steps| - 1]), steps[|steps| - 1])
  }

  /** All recipients but `n` settled before; these `n` are in flight. */
  function Opening(n: nat): seq<Phase> {
    seq(n, i => Idle)
  }

  predicate AllCommitted(s: seq<Phase>) {
    forall j :: 0 <= j < |s| ==> s[j].Committed?
  }

  /** Some settlement saw nobody open, and so completed the campaign. */
  ghost predicate Completed(s: seq<Phase>) {
    exists i :: 0 <= i < |s| && s[i] == Committed(true)
  }

  /** All but `i` have committed, and `i` has yet to look. */
  ghost predicate LastToLook(s: seq<Phase>, i: nat) {
    i < |s| && OthersCommitted(s, i) && (s[i].Idle? || s[i].Written?)
  }

  ghost predicate SomeLastToLook(s: seq<Phase>) {
    exists i: nat :: LastToLook(s, i)
  }

  /** At some moment of the run all but one of them have committed, and that one has yet to look. */
  ghost predicate OneLooksLast(n: nat, steps: seq<Step>)
    decreases |steps|
  {
    SomeLastToLook(Run(Opening(n), steps)) || (steps != [] && OneLooksLast(n, steps[..|steps| - 1]))
  }

  lemma {:induction false} SeenMeansLast(n: nat, steps: seq<Step>, i: nat)
    requires i < n && Run(Opening(n), steps)[i] in {Looked(true), Committed(true)}
    ensures OneLooksLast(n, steps)
    decreases |steps|
  {
    var front := steps[..|steps| - 1];
    if Run(Opening(n), front)[i] in {Looked(true), Committed(true)} {
      SeenMeansLast(n, front, i);
    } else {
      assert LastToLook(Run(Opening(n), front), i);
      assert SomeLastToLook(Run(Opening(n), front));
    }
  }

  /** All but `i` have committed, and `i` sees that, or will. */
  ghost predicate WillSee(s: seq<Phase>, i: nat) {
    i < |s| && OthersCommitted(s, i) && (s[i].Idle? || s[i].Written? || s[i].drained)
  }

  lemma {:induction false} LastWillSee(n: nat, steps: seq<Step>) returns (i: nat)
    requires OneLooksLast(n, steps)
    ensures WillSee(Run(Opening(n), steps), i)
    decreases |steps|
  {
    if SomeLastToLook(Run(Opening(n), steps)) {
      i :| LastToLook(Run(Opening(n), steps), i);
    } else {
      i := LastWillSee(n, steps[..|steps| - 1]);
    }
  }

  /**
   * When all have committed, the campaign is completed exactly when at some moment all but
   * one of them had, and that one had yet to look.
   */
  lemma CompletedIffOneLooksLast(n: nat, steps: seq<Step>)
    requires AllCommitted(Run(Opening(n), steps))
    ensures Completed(Run(Opening(n), steps)) <==> OneLooksLast(n, steps)
  {
    var z := Run(Opening(n), steps);
    if Completed(z) {
      var i: nat :| i < |z| && z[i] == Committed(true);
      SeenMeansLast(n, steps, i);
    }
    if OneLooksLast(n, steps) {
      var i := LastWillSee(n, steps);
      assert z[i] == Committed(true);
    }
  }

  // ---- One after the other ----------------------------------------------------------

  predicate Active(p: Phase) {
    p.Written? || p.Looked?
  }

  predicate OneActive(s: seq<Phase>) {
    forall i, j :: 0 <= i < |s| && 0 <= j < |s| && i != j && Active(s[i]) ==> !Active(s[j])
  }

  /** No two of them at once. */
  ghost predicate Serial(n: nat, steps: seq<Step>) {
    forall t :: 0 <= t <= |steps| ==> OneActive(Run(Opening(n), steps[..t]))
  }

  predicate SomeIdle(s: seq<Phase>) {
    exists i :: 0 <= i < |s| && s[i].Idle?
  }

  /** The last of them to begin is alone. */
  lemma {:induction false} SerialLooksLast(n: nat, steps: seq<Step>)
    requires n >= 1 && Serial(n, steps) && !SomeIdle(Run(Opening(n), steps))
    ensures OneLooksLast(n, steps)
    decreases |steps|
  {
    assert Opening(n)[0].Idle?;
    var front := steps[..|steps| - 1];
    var s := Run(Opening(n), front);
    assert steps[..|steps|] == steps;
    if SomeIdle(s) {
      LastIsAlone(s, steps[|steps| - 1]);
    } else {
      SerialBefore(n, steps);
      SerialLooksLast(n, front);
    }
  }

  lemma SerialBefore(n: nat, steps: seq<Step>)
    requires Serial(n, steps) && steps != []
    ensures Serial(n, steps[..|steps| - 1])
  {
    var front := steps[..|steps| - 1];
    forall t | 0 <= t <= |front| ensures OneActive(Run(Opening(n), front[..t])) {
      assert front[..t] == steps[..t];
    }
  }

  /** Settlements that do not overlap complete the campaign. */
  lemma SerialCompletes(n: nat, steps: seq<Step>)
    requires n >= 1 && Serial(n, steps) && AllCommitted(Run(Opening(n), steps))
    ensures Completed(Run(Opening(n), steps))
  {
    SerialLooksLast(n, steps);
    CompletedIffOneLooksLast(n, steps);
  }

  lemma LastIsAlone(s: seq<Phase>, e: Step)
    requires SomeIdle(s) && !SomeIdle(Apply(s, e)) && OneActive(Apply(s, e))
    ensures LastToLook(Apply(s, e), e.i)
  {
    var z := Apply(s, e);
    var i :| 0 <= i < |s| && s[i].Idle?;
    assert !z[i].Idle?;
    assert z[e.i].Written?;
    forall j | 0 <= j < |z| && j != e.i ensures z[j].Committed? {
      assert !z[j].Idle? && Active(z[e.i]);
    }
  }

  lemma FirstLooks()
    ensures Apply([Written, Written], Look(0)) == [Looked(false), Written]
  {
    assert !OthersCommitted([Written, Written], 0) by { assert !([Written, Written][1].Committed?); }
  }

  lemma SecondLooks()
    ensures Apply([Looked(false), Written], Look(1)) == [Looked(false), Looked(false)]
  {
    assert !OthersCommitted([Looked(false), Written], 1) by { assert !([Looked(false), Written][0].Committed?); }
  }

  const OVERLAP: seq<Step> := [Write(0), Write(1), Look(0), Look(1), Commit(0), Commit(1)]

  lemma BothHaveLooked(steps: seq<Step>)
    requires steps == OVERLAP
    ensures Run(Opening(2), steps[..4]) == [Looked(false), Looked(false)]
  {
    assert steps[..0] == [] && Opening(2) == [Idle, Idle];
    FirstLooks();
    SecondLooks();
    Next(steps, 0, [Idle, Idle], [Written, Idle]);
    Next(steps, 1, [Written, Idle], [Written, Written]);
    Next(steps, 2, [Written, Written], [Looked(false), Written]);
    Next(steps, 3, [Looked(false), Written], [Looked(false), Looked(false)]);
  }

  /** Two that overlap: both settle, and nobody completes the campaign. */
  lemma OverlapCanLeaveItRunning(steps: seq<Step>)
    requires steps == OVERLAP
    ensures Run(Opening(2), steps) == [Committed(false), Committed(false)] && !Completed(Run(Opening(2), steps))
  {
    assert steps[..6] == steps;
    BothHaveLooked(steps);
    Next(steps, 4, [Looked(false), Looked(false)], [Committed(false), Looked(false)]);
    Next(steps, 5, [Committed(false), Looked(false)], [Committed(false), Committed(false)]);
  }

  lemma Next(steps: seq<Step>, t: nat, mid: seq<Phase>, next: seq<Phase>)
    requires t < |steps| && Run(Opening(2), steps[..t]) == mid && Apply(mid, steps[t]) == next
    ensures Run(Opening(2), steps[..t + 1]) == next
  {
    assert steps[..t + 1][..t] == steps[..t];
  }
}
