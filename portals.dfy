/**
 * The per-portal state machine behind `releasePortal`, `emergencyPortal` and
 * `restorePortal` of src/index.js, the deferred auto-release reset, and the
 * portal label that `simulatePoints` derives.
 */
module Portals {
  import opened Optional
  import opened Replies
  import opened Events

  datatype PortalState = PortalState(emergency: bool, released: bool)

  /** Every portal starts in normal operation, not released. */
  const Initial := PortalState(false, false)

  datatype PortalCommand = ReleaseCmd | EmergencyCmd | RestorePortalCmd

  datatype PortalStep = PortalStep(reply: Reply, portal: PortalState, emission: Option<Emission>)

  /**
   * The event (code and symbol, as `createEvent` is called with them) a
   * portal reply is announced with; the three accepting replies get one
   * each, every other reply none.
   */
  function PortalEmission(r: Reply): (e: Option<Emission>)
    ensures e.Some? <==> r in {Released, Done, Restored}
    ensures e.Some? ==> !r.IsRejection()
    ensures e.Some? ==> e.value.code in {PortalReleasedCode, PortalEmergencyCode, PortalRestoredCode}
  {
    match r
    case Released => Some(Emission(PortalReleasedCode, "PORTAL_RELEASED"))
    case Done => Some(Emission(PortalEmergencyCode, "PORTAL_EMERGENCY"))
    case Restored => Some(Emission(PortalRestoredCode, "PORTAL_RESTORED"))
    case _ => None
  }

  /** Distinct accepting portal replies are announced with distinct event codes. */
  lemma PortalCodesDistinct(a: Reply, b: Reply)
    requires PortalEmission(a).Some? && PortalEmission(b).Some?
    ensures PortalEmission(a).value.code == PortalEmission(b).value.code <==> a == b
  {
  }

  /** `releasePortal`: refused in emergency with `released` untouched; otherwise the portal is released. */
  function ReleaseStep(p: PortalState): (s: PortalStep)
    ensures s.reply == (if p.emergency then Emergency else Released)
    ensures s.portal == (if p.emergency then p else p.(released := true))
    ensures s.emission == PortalEmission(s.reply)
  {
    if p.emergency then PortalStep(Emergency, p, None)
    else PortalStep(Released, p.(released := true), Some(Emission(PortalReleasedCode, "PORTAL_RELEASED")))
  }

  /** `emergencyPortal`: enters emergency, which also releases the portal; refused when already in emergency. */
  function EmergencyStep(p: PortalState): (s: PortalStep)
    ensures s.reply == (if p.emergency then AlreadyEmergency else Done)
    ensures s.portal == (if p.emergency then p else PortalState(true, true))
    ensures s.emission == PortalEmission(s.reply)
  {
    if p.emergency then PortalStep(AlreadyEmergency, p, None)
    else PortalStep(Done, PortalState(true, true), Some(Emission(PortalEmergencyCode, "PORTAL_EMERGENCY")))
  }

  /** `restorePortal`: leaves emergency and clears `released`; outside emergency it answers NORMAL_OPERATION. */
  function RestoreStep(p: PortalState): (s: PortalStep)
    ensures s.reply == (if p.emergency then Restored else NormalOperation)
    ensures s.portal == (if p.emergency then PortalState(false, false) else p)
    ensures s.emission == PortalEmission(s.reply)
  {
    if !p.emergency then PortalStep(NormalOperation, p, None)
    else PortalStep(Restored, PortalState(false, false), Some(Emission(PortalRestoredCode, "PORTAL_RESTORED")))
  }

  /**
   * One portal mutation. A rejection leaves the portal as it was and creates
   * no event; every accepted call creates one. Each step keeps "emergency
   * implies released".
   */
  function Step(cmd: PortalCommand, p: PortalState): (s: PortalStep)
    ensures s.reply.IsRejection() <==> s.emission.None?
    ensures s.reply.IsRejection() ==> s.portal == p
    ensures s.emission == PortalEmission(s.reply)
    ensures Consistent(p) ==> Consistent(s.portal)
  {
    match cmd
    case ReleaseCmd => ReleaseStep(p)
    case EmergencyCmd => EmergencyStep(p)
    case RestorePortalCmd => RestoreStep(p)
  }

  /** The expected portal invariant: a portal in emergency is released. */
  predicate Consistent(p: PortalState) {
    p.emergency ==> p.released
  }

  /**
   * The timer `releasePortal` schedules: it sets `released` back to false and
   * does not look at `emergency` first.
   */
  function TimeoutReset(p: PortalState): (p': PortalState)
    ensures !p'.released && p'.emergency == p.emergency
  {
    p.(released := false)
  }

  /**
   * A release timer that fires after the portal entered emergency leaves it
   * in emergency but not released: the reset breaks `Consistent`.
   */
  lemma TimeoutAfterEmergencyBreaksConsistency()
    ensures var p := ReleaseStep(Initial).portal;
            var q := EmergencyStep(p).portal;
            Consistent(q) && !Consistent(TimeoutReset(q))
  {
  }

  /** `releasePortal` during an emergency answers EMERGENCY and leaves `released` as `emergencyPortal` set it. */
  lemma ReleaseDuringEmergency(p: PortalState)
    requires !p.emergency
    ensures var q := EmergencyStep(p).portal;
            ReleaseStep(q).reply == Emergency && ReleaseStep(q).portal.released && q.released
  {
  }

  /** The `PORTAL<id>_STATE` label, by priority: EMERGENCY, then RELEASED, else NORMAL. */
  function Label(p: PortalState): (l: PortalLabel)
    ensures l == EmergencyLabel <==> p.emergency
    ensures l == ReleasedLabel <==> !p.emergency && p.released
    ensures l == NormalLabel <==> !p.emergency && !p.released
  {
    if p.emergency then EmergencyLabel else if p.released then ReleasedLabel else NormalLabel
  }

  /** The values of the `PORTAL<id>_STATE` point. */
  datatype PortalLabel = EmergencyLabel | ReleasedLabel | NormalLabel
  {
    /** The text the point carries. */
    function Name(): (s: string)
      ensures IsConstantName(s)
    {
      match this
      case EmergencyLabel => "EMERGENCY"
      case ReleasedLabel => "RELEASED"
      case NormalLabel => "NORMAL"
    }
  }

  /** Different labels are told apart by their text. */
  lemma LabelNameInjective(a: PortalLabel, b: PortalLabel)
    ensures a.Name() == b.Name() <==> a == b
  {
  }
}
