/**
 Claim attempts of the LocalVolume and LocalVolumeSet controllers, interleaved call by call.
 An attempt opens the device exclusively, scans the storage root for links to it, decides,
 creates its link and closes the device.  The by-id map is fixed, so a link is live for a device
 or for none.
 */
module ClaimLock {
  import opened Objects
  import opened ClaimRules

  type Device = string
  type Id = nat

  datatype Pc =
    | Opening
    // the open came back; `locked` says whether it succeeded
    | Opened(locked: bool)
    | Decided(locked: bool, decision: Decision)
    // the link call is over, or there was none
    | Closing(locked: bool)
    | Over

  datatype Attempt = Attempt(who: Controller, device: Device, target: LinkPath, pc: Pc)

  // `links` gives the device each link resolves to, if any; `holders` the exclusive openers.
  datatype State = State(links: map<LinkPath, Option<Device>>, holders: map<Device, Id>, attempts: map<Id, Attempt>)

  function Claims(s: State, d: Device): set<LinkPath> {
    set l | l in s.links && s.links[l] == Some(d)
  }

  datatype Step =
    | Start(id: Id, who: Controller, device: Device, target: LinkPath)
    // `granted` is the kernel's answer: never while another attempt holds the device, and
    // perhaps not even then, since other programs open devices too
    | Open(id: Id, granted: bool)
    // the open failed for a reason other than a busy device, and the scan is skipped
    | OpenError(id: Id)
    | ScanRoot(id: Id, scanOk: bool)
    | CreateLink(id: Id, created: bool)
    | Close(id: Id)
    // a link goes away
    | RemoveLink(l: LinkPath)

  // Is the step possible in this state?
  ghost predicate Enabled(s: State, step: Step) {
    match step
    case Start(id, _, _, _) => id !in s.attempts
    case Open(id, granted) =>
      id in s.attempts && s.attempts[id].pc == Opening && (granted ==> s.attempts[id].device !in s.holders)
    case OpenError(id) => id in s.attempts && s.attempts[id].pc == Opening
    case ScanRoot(id, _) => id in s.attempts && s.attempts[id].pc.Opened?
    case CreateLink(id, created) =>
      && id in s.attempts && s.attempts[id].pc.Decided? && s.attempts[id].pc.decision == Proceed
      && (created ==> s.attempts[id].target !in s.links)
    case Close(id) =>
      && id in s.attempts
      && (s.attempts[id].pc.Closing? || (s.attempts[id].pc.Decided? && s.attempts[id].pc.decision != Proceed))
    case RemoveLink(_) => true
  }

  ghost function Next(s: State, step: Step): State
    requires Enabled(s, step)
  {
    match step
    case Start(id, who, d, target) => s.(attempts := s.attempts[id := Attempt(who, d, target, Opening)])
    case Open(id, granted) =>
      var a := s.attempts[id];
      s.(holders := if granted then s.holders[a.device := id] else s.holders,
         attempts := s.attempts[id := a.(pc := Opened(granted))])
    case OpenError(id) => s.(attempts := s.attempts[id := s.attempts[id].(pc := Over)])
    case ScanRoot(id, scanOk) =>
      var a := s.attempts[id];
      var decision := Decide(a.who, a.pc.locked, scanOk, Claims(s, a.device), a.target);
      s.(attempts := s.attempts[id := a.(pc := Decided(a.pc.locked, decision))])
    case CreateLink(id, created) =>
      var a := s.attempts[id];
      s.(links := if created then s.links[a.target := Some(a.device)] else s.links,
         attempts := s.attempts[id := a.(pc := Closing(a.pc.locked))])
    case Close(id) =>
      var a := s.attempts[id];
      s.(holders := if a.pc.locked then s.holders - {a.device} else s.holders,
         attempts := s.attempts[id := a.(pc := Over)])
    case RemoveLink(l) => s.(links := s.links - {l})
  }

  ghost predicate AtMostOneLink(s: State) {
    forall a, b :: a in s.links && b in s.links && s.links[a].Some? && s.links[a] == s.links[b] ==> a == b
  }

  // An attempt that reports the lock holds it.
  ghost predicate LockHeld(s: State, id: Id) {
    id in s.attempts ==>
      var a := s.attempts[id];
      (a.pc.Opened? || a.pc.Decided? || a.pc.Closing?) && a.pc.locked ==>
        a.device in s.holders && s.holders[a.device] == id
  }

  // An attempt about to create its link holds the lock, and no link to its device exists.
  ghost predicate ProceedIsSafe(s: State, id: Id) {
    id in s.attempts && s.attempts[id].pc.Decided? && s.attempts[id].pc.decision == Proceed ==>
      s.attempts[id].pc.locked && Claims(s, s.attempts[id].device) == {}
  }

  ghost predicate Inv(s: State) {
    AtMostOneLink(s) && forall id :: id in s.attempts ==> LockHeld(s, id) && ProceedIsSafe(s, id)
  }

  // The one hypothesis: a LocalVolumeSet attempt that holds the lock and loses its scan loses nothing,
  // because there is no link to its device.
  ghost predicate ScanIsHarmless(s: State, step: Step) {
    step.ScanRoot? && step.id in s.attempts ==>
      var a := s.attempts[step.id];
      a.who == LocalVolumeSet && a.pc == Opened(true) && !step.scanOk ==> Claims(s, a.device) == {}
  }

  lemma CreateKeepsInv(s: State, step: Step)
    requires Inv(s) && Enabled(s, step) && step.CreateLink? && step.created
    ensures Inv(Next(s, step))
  {
    var s', a := Next(s, step), s.attempts[step.id];
    assert ProceedIsSafe(s, step.id) && LockHeld(s, step.id);
    CreateKeepsOneLinkIff(s, step);
    forall id | id in s'.attempts
      ensures LockHeld(s', id) && ProceedIsSafe(s', id)
    {
      assert LockHeld(s, id) && ProceedIsSafe(s, id);
      if id != step.id && s.attempts[id].pc.Decided? && s.attempts[id].pc.decision == Proceed {
        assert s.attempts[id].device != a.device;
        assert Claims(s', s.attempts[id].device) == Claims(s, s.attempts[id].device);
      }
    }
  }

  /**
   What an attempt does after its scan: it goes on to link iff it holds the lock and either the scan
   found no link or, for a LocalVolumeSet, the scan was lost; it has nothing to do iff the scan found
   its own link; in all other cases it refuses.
   */
  lemma ScanDecides(s: State, step: Step)
    requires Enabled(s, step) && step.ScanRoot?
    ensures var a, pc := s.attempts[step.id], Next(s, step).attempts[step.id].pc;
            && pc.Decided? && pc.locked == a.pc.locked
            && (pc.decision == Proceed <==>
                  a.pc.locked && if step.scanOk then Claims(s, a.device) == {} else a.who == LocalVolumeSet)
            && (pc.decision == AlreadyOurs <==> step.scanOk && a.target in Claims(s, a.device))
    ensures Next(s, step).links == s.links && Next(s, step).holders == s.holders
  {
  }

  /** A scan keeps the invariant iff it is harmless. */
  lemma ScanKeepsInvIff(s: State, step: Step)
    requires Inv(s) && Enabled(s, step) && step.ScanRoot?
    ensures Inv(Next(s, step)) <==> ScanIsHarmless(s, step)
  {
    var s' := Next(s, step);
    assert forall d :: Claims(s', d) == Claims(s, d);
    if ScanIsHarmless(s, step) {
      forall id | id in s'.attempts
        ensures LockHeld(s', id) && ProceedIsSafe(s', id)
      {
        assert LockHeld(s, id) && ProceedIsSafe(s, id);
      }
    } else {
      assert s'.attempts[step.id].pc == Decided(true, Proceed);
      assert !ProceedIsSafe(s', step.id);
    }
  }

  /** A created link is the only live one of its device iff there was none. */
  lemma CreateKeepsOneLinkIff(s: State, step: Step)
    requires AtMostOneLink(s) && Enabled(s, step) && step.CreateLink? && step.created
    ensures AtMostOneLink(Next(s, step)) <==> Claims(s, s.attempts[step.id].device) == {}
  {
    var s', a := Next(s, step), s.attempts[step.id];
    if l :| l in Claims(s, a.device) {
      assert s'.links[l] == s'.links[a.target] == Some(a.device);
    } else {
      forall x, y | x in s'.links && y in s'.links && s'.links[x].Some? && s'.links[x] == s'.links[y]
        ensures x == y
      {
        assert x != a.target && s'.links[x] == Some(a.device) ==> x in Claims(s, a.device);
        assert y != a.target && s'.links[y] == Some(a.device) ==> y in Claims(s, a.device);
      }
    }
  }

  lemma LockStepKeepsInv(s: State, step: Step)
    requires Inv(s) && Enabled(s, step) && !step.ScanRoot? && !(step.CreateLink? && step.created)
    ensures Inv(Next(s, step))
  {
    var s' := Next(s, step);
    forall id | id in s'.attempts
      ensures LockHeld(s', id) && ProceedIsSafe(s', id)
    {
      if id in s.attempts {
        assert LockHeld(s, id) && ProceedIsSafe(s, id);
        assert Claims(s', s.attempts[id].device) <= Claims(s, s.attempts[id].device);
      }
      if step.Close? {
        assert LockHeld(s, step.id);
      }
    }
  }

  /** The invariant is kept by every step but a harmful scan. */
  lemma StepKeepsInvIff(s: State, step: Step)
    requires Inv(s) && Enabled(s, step)
    ensures Inv(Next(s, step)) <==> ScanIsHarmless(s, step)
  {
    if step.ScanRoot? {
      ScanKeepsInvIff(s, step);
    } else if step.CreateLink? && step.created {
      CreateKeepsInv(s, step);
    } else {
      LockStepKeepsInv(s, step);
    }
  }

  // ----- Interleavings -----

  ghost predicate IsRun(states: seq<State>, steps: seq<Step>) {
    && |states| == |steps| + 1
    && forall k :: 0 <= k < |steps| ==> Enabled(states[k], steps[k]) && states[k + 1] == Next(states[k], steps[k])
  }

  /**
   In every interleaving of any number of attempts of both kinds, at most one live link under the
   storage root exists per device, at every point of the run.
   */
  lemma {:induction false} AtMostOneClaim(states: seq<State>, steps: seq<Step>, i: nat)
    requires IsRun(states, steps) && Inv(states[0]) && i <= |steps|
    requires forall k :: 0 <= k < |steps| ==> ScanIsHarmless(states[k], steps[k])
    ensures Inv(states[i]) && AtMostOneLink(states[i])
  {
    if i > 0 {
      AtMostOneClaim(states, steps, i - 1);
      StepKeepsInvIff(states[i - 1], steps[i - 1]);
    }
  }

  /** From a quiet state without a link to the device, either controller can claim it. */
  lemma ClaimSucceeds(s: State, who: Controller, d: Device, target: LinkPath)
    returns (states: seq<State>, steps: seq<Step>)
    requires s.attempts == map[] && s.holders == map[] && Claims(s, d) == {} && target !in s.links
    ensures IsRun(states, steps) && states[0] == s
    ensures forall k :: 0 <= k < |steps| ==> ScanIsHarmless(states[k], steps[k])
    ensures states[|steps|].links == s.links[target := Some(d)] && states[|steps|].holders == map[]
  {
    steps := [Start(0, who, d, target), Open(0, true), ScanRoot(0, true), CreateLink(0, true), Close(0)];
    var s1 := Next(s, steps[0]);
    var s2 := Next(s1, steps[1]);
    assert Claims(s2, d) == Claims(s, d);
    ScanDecides(s2, steps[2]);
    var s3 := Next(s2, steps[2]);
    var s4 := Next(s3, steps[3]);
    var s5 := Next(s4, steps[4]);
    states := [s, s1, s2, s3, s4, s5];
    assert map[d := 0] - {d} == map[];
  }

  /** After a harmful scan the attempt may go on to create a second live link. */
  lemma HarmfulScanDuplicates(s: State, step: Step)
    requires Inv(s) && Enabled(s, step) && step.ScanRoot? && !ScanIsHarmless(s, step)
    requires s.attempts[step.id].target !in s.links
    ensures var s1, create := Next(s, step), CreateLink(step.id, true);
            Enabled(s1, create) && !AtMostOneLink(Next(s1, create))
  {
    var s1, create := Next(s, step), CreateLink(step.id, true);
    assert Claims(s1, s1.attempts[step.id].device) == Claims(s, s.attempts[step.id].device);
    assert s1.attempts[step.id].pc == Decided(true, Proceed);
    CreateKeepsOneLinkIff(s1, create);
  }

  // A quiet node satisfies the invariant.
  lemma QuietStart(s: State)
    requires s.attempts == map[] && AtMostOneLink(s)
    ensures Inv(s)
  {
  }

  /**
   The LocalVolumeSet controller goes on when it holds the lock and the scan failed: from any quiet
   state with a link to the device, its attempt then adds a second live link.  The LocalVolume
   controller refuses there, so its scans may fail.
   */
  lemma LostScanDuplicates(s: State, d: Device, l: LinkPath, target: LinkPath)
    returns (states: seq<State>, steps: seq<Step>)
    requires Inv(s) && s.attempts == map[] && s.holders == map[]
    requires l in s.links && s.links[l] == Some(d) && target !in s.links
    ensures IsRun(states, steps) && states[0] == s && !AtMostOneLink(states[|steps|])
  {
    steps := [Start(0, LocalVolumeSet, d, target), Open(0, true), ScanRoot(0, false), CreateLink(0, true)];
    var s1 := Next(s, steps[0]);
    var s2 := Next(s1, steps[1]);
    var s3 := Next(s2, steps[2]);
    var s4 := Next(s3, steps[3]);
    states := [s, s1, s2, s3, s4];
    assert s4.links[l] == s4.links[target] == Some(d);
  }
}
