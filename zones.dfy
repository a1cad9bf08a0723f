/**
 * The per-zone state machine behind the zone resolvers of src/index.js
 * (`controlZone`, `restoreZone`, `testZone`, `blockZone`) and the zone label
 * that `simulatePoints` derives from it. Each step is the part of a resolver
 * that runs once the zone id has been found.
 */
module Zones {
  import opened Optional
  import opened Replies
  import opened Events

  datatype ZoneState = ZoneState(armed: bool, alarm: bool, blocked: bool, testing: bool)

  /** Every zone starts disarmed, without alarm, unblocked and not testing. */
  const Initial := ZoneState(false, false, false, false)

  /** The zone mutations; `ControlCmd` carries the `override` argument of `controlZone`. */
  datatype ZoneCommand = ControlCmd(override: bool) | RestoreCmd | TestCmd | BlockCmd

  /** A step's reply, the zone's new flags, and the event to create (if any). */
  datatype ZoneStep = ZoneStep(reply: Reply, zone: ZoneState, emission: Option<Emission>)

  /**
   * The event (code and symbol, as `createEvent` is called with them) a zone
   * reply is announced with; the six accepting replies get one each, every
   * other reply none.
   */
  function ZoneEmission(r: Reply): (e: Option<Emission>)
    ensures e.Some? <==> r in {ZoneArmed, ZoneDisarmed, Restored, Started, ZoneTestEnded, Blocked}
    ensures e.Some? ==> !r.IsRejection()
    ensures e.Some? ==> e.value.code in {ArmCode, DisarmCode, AlarmRestoreCode, TestStartCode, TestEndCode, ZoneBlockedCode}
  {
    match r
    case ZoneArmed => Some(Emission(ArmCode, "ARM"))
    case ZoneDisarmed => Some(Emission(DisarmCode, "DISARM"))
    case Restored => Some(Emission(AlarmRestoreCode, "ALARM_RESTORE"))
    case Started => Some(Emission(TestStartCode, "TEST_START"))
    case ZoneTestEnded => Some(Emission(TestEndCode, "TEST_END"))
    case Blocked => Some(Emission(ZoneBlockedCode, "ZONE_BLOCKED"))
    case _ => None
  }

  /** Distinct accepting zone replies are announced with distinct event codes, so a subscriber can tell them apart. */
  lemma ZoneCodesDistinct(a: Reply, b: Reply)
    requires ZoneEmission(a).Some? && ZoneEmission(b).Some?
    ensures ZoneEmission(a).value.code == ZoneEmission(b).value.code <==> a == b
  {
  }

  /**
   * `controlZone`: an armed zone is disarmed (its alarm cleared with it); a
   * disarmed zone is armed unless it is blocked and no override is given.
   */
  function ControlStep(z: ZoneState, override: bool): (s: ZoneStep)
    ensures s.reply == BlockedSensor <==> !z.armed && z.blocked && !override
    ensures s.reply == BlockedSensor ==> s.zone == z
    ensures s.reply != BlockedSensor ==> s.zone.armed == !z.armed && (s.reply == ZoneArmed <==> s.zone.armed)
    ensures s.reply in {ZoneArmed, ZoneDisarmed, BlockedSensor}
    ensures z.armed ==> !s.zone.alarm
    ensures !z.armed ==> s.zone.alarm == z.alarm
    ensures s.zone.blocked == z.blocked && s.zone.testing == z.testing
    ensures s.emission == ZoneEmission(s.reply)
  {
    if z.armed then
      ZoneStep(ZoneDisarmed, z.(armed := false, alarm := false), Some(Emission(DisarmCode, "DISARM")))
    else if z.blocked && !override then
      ZoneStep(BlockedSensor, z, None)
    else
      ZoneStep(ZoneArmed, z.(armed := true), Some(Emission(ArmCode, "ARM")))
  }

  /** `restoreZone`: clears an active alarm; without one it answers ALARM_NOT_ACTIVE. */
  function RestoreStep(z: ZoneState): (s: ZoneStep)
    ensures s.reply == (if z.alarm then Restored else AlarmNotActive)
    ensures s.zone == z.(alarm := false)
    ensures s.emission == ZoneEmission(s.reply)
  {
    if !z.alarm then ZoneStep(AlarmNotActive, z, None)
    else ZoneStep(Restored, z.(alarm := false), Some(Emission(AlarmRestoreCode, "ALARM_RESTORE")))
  }

  /**
   * `testZone` in its toggling form: refused on an armed zone; otherwise test
   * mode is switched to the opposite of what it was.
   */
  function TestStep(z: ZoneState): (s: ZoneStep)
    ensures s.reply == DisarmRequired <==> z.armed
    ensures z.armed ==> s.zone == z
    ensures !z.armed ==> s.zone == z.(testing := !z.testing) && (s.reply == Started <==> s.zone.testing)
    ensures s.reply in {DisarmRequired, Started, ZoneTestEnded}
    ensures s.emission == ZoneEmission(s.reply)
  {
    if z.armed then ZoneStep(DisarmRequired, z, None)
    else if z.testing then ZoneStep(ZoneTestEnded, z.(testing := false), Some(Emission(TestEndCode, "TEST_END")))
    else ZoneStep(Started, z.(testing := true), Some(Emission(TestStartCode, "TEST_START")))
  }

  /** `blockZone`: blocks a disarmed, unblocked zone; refuses an armed one first, then an already blocked one. */
  function BlockStep(z: ZoneState): (s: ZoneStep)
    ensures s.reply == DisarmRequired <==> z.armed
    ensures s.reply == AlreadyBlocked <==> !z.armed && z.blocked
    ensures s.reply == Blocked <==> !z.armed && !z.blocked
    ensures s.zone == (if z.armed then z else z.(blocked := true))
    ensures s.emission == ZoneEmission(s.reply)
  {
    if z.armed then ZoneStep(DisarmRequired, z, None)
    else if z.blocked then ZoneStep(AlreadyBlocked, z, None)
    else ZoneStep(Blocked, z.(blocked := true), Some(Emission(ZoneBlockedCode, "ZONE_BLOCKED")))
  }

  /**
   * One zone mutation. Whatever the command: a rejection is exactly a step
   * that leaves the zone as it was and creates no event, no step raises an
   * alarm, and only `blockZone` sets `blocked` (nothing clears it).
   */
  function Step(cmd: ZoneCommand, z: ZoneState): (s: ZoneStep)
    ensures s.reply.IsRejection() <==> s.zone == z
    ensures s.reply.IsRejection() <==> s.emission.None?
    ensures s.emission == ZoneEmission(s.reply)
    ensures s.zone.alarm ==> z.alarm
    ensures s.zone.blocked == (z.blocked || s.reply == Blocked)
  {
    match cmd
    case ControlCmd(override) => ControlStep(z, override)
    case RestoreCmd => RestoreStep(z)
    case TestCmd => TestStep(z)
    case BlockCmd => BlockStep(z)
  }

  /** The values of the `ZONE<id>_STATE` point. */
  datatype ZoneLabel = AlarmLabel | TestingLabel | BlockedLabel | ArmedLabel | DisarmedLabel
  {
    /** The text the point carries. */
    function Name(): (s: string)
      ensures IsConstantName(s)
    {
      match this
      case AlarmLabel => "ALARM"
      case TestingLabel => "TESTING"
      case BlockedLabel => "BLOCKED"
      case ArmedLabel => "ARMED"
      case DisarmedLabel => "DISARMED"
    }
  }

  /**
   * The `ZONE<id>_STATE` label `simulatePoints` publishes, by priority:
   * ALARM, then TESTING, then BLOCKED, then ARMED, else DISARMED.
   */
  function Label(z: ZoneState): (l: ZoneLabel)
    ensures l == AlarmLabel <==> z.alarm
    ensures l == TestingLabel <==> !z.alarm && z.testing
    ensures l == BlockedLabel <==> !z.alarm && !z.testing && z.blocked
    ensures l == ArmedLabel <==> !z.alarm && !z.testing && !z.blocked && z.armed
    ensures l == DisarmedLabel <==> !z.alarm && !z.testing && !z.blocked && !z.armed
  {
    if z.alarm then AlarmLabel
    else if z.testing then TestingLabel
    else if z.blocked then BlockedLabel
    else if z.armed then ArmedLabel
    else DisarmedLabel
  }

  /** Two `controlZone` calls on a disarmed, unblocked zone arm then disarm it, and leave no alarm. */
  lemma ControlTwice(z: ZoneState, override: bool)
    requires !z.armed && !z.blocked
    ensures var s1 := ControlStep(z, override); var s2 := ControlStep(s1.zone, override);
            s1.reply == ZoneArmed && s2.reply == ZoneDisarmed && !s2.zone.alarm && !s2.zone.armed
  {
  }

  /** Two `blockZone` calls on a disarmed, unblocked zone answer BLOCKED then ALREADY_BLOCKED, and it stays blocked. */
  lemma BlockTwice(z: ZoneState)
    requires !z.armed && !z.blocked
    ensures var s1 := BlockStep(z); var s2 := BlockStep(s1.zone);
            s1.reply == Blocked && s2.reply == AlreadyBlocked && s2.zone == s1.zone && s2.zone.blocked
  {
  }

  /** Two `testZone` calls on a disarmed zone give back its original flags, one STARTED and one ZONE_TEST_ENDED. */
  lemma TestTwice(z: ZoneState)
    requires !z.armed
    ensures var s1 := TestStep(z); var s2 := TestStep(s1.zone);
            s2.zone == z && {s1.reply, s2.reply} == {Started, ZoneTestEnded}
  {
  }

  /**
   * The code does not keep "testing requires disarmed" or "blocked requires
   * disarmed": `controlZone` arms a zone in test mode, and with `override`
   * arms a blocked one.
   */
  lemma ArmingIgnoresTestAndBlock()
    ensures ControlStep(ZoneState(false, false, false, true), false).zone == ZoneState(true, false, false, true)
    ensures ControlStep(ZoneState(false, false, true, false), true).zone == ZoneState(true, false, true, false)
  {
  }

  /** Different labels are told apart by their text. */
  lemma LabelNameInjective(a: ZoneLabel, b: ZoneLabel)
    ensures a.Name() == b.Name() <==> a == b
  {
  }
}
