/**
 * The fixed result vocabulary of the controller's mutations. Every resolver
 * in src/index.js answers with one of these strings; `Name` gives the exact
 * wire spelling.
 */
module Replies {
  /** A constant-style identifier: non-empty, upper-case letters and underscores only. */
  predicate IsConstantName(s: string) {
    |s| > 0 && forall c :: c in s ==> c in ConstantChars
  }

  const ConstantChars: set<char> := set c: char | 'A' <= c <= 'Z' || c == '_'

  datatype Reply =
    | Unknown
    | ZoneArmed | ZoneDisarmed | BlockedSensor
    | Restored | AlarmNotActive
    | Started | ZoneTestEnded | DisarmRequired
    | Blocked | AlreadyBlocked
    | Released | Emergency | Done | AlreadyEmergency | NormalOperation
    | Suspended | AlreadySuspended | Resumed | AlreadyResumed
    | Reactivated
  {
    /** The string the GraphQL resolver returns. */
    function Name(): (s: string)
      ensures IsConstantName(s)
    {
      match this
      case Unknown => "UNKNOWN"
      case ZoneArmed => "ZONE_ARMED"
      case ZoneDisarmed => "ZONE_DISARMED"
      case BlockedSensor => "BLOCKED_SENSOR"
      case Restored => "RESTORED"
      case AlarmNotActive => "ALARM_NOT_ACTIVE"
      case Started => "STARTED"
      case ZoneTestEnded => "ZONE_TEST_ENDED"
      case DisarmRequired => "DISARM_REQUIRED"
      case Blocked => "BLOCKED"
      case AlreadyBlocked => "ALREADY_BLOCKED"
      case Released => "RELEASED"
      case Emergency => "EMERGENCY"
      case Done => "DONE"
      case AlreadyEmergency => "ALREADY_EMERGENCY"
      case NormalOperation => "NORMAL_OPERATION"
      case Suspended => "SUSPENDED"
      case AlreadySuspended => "ALREADY_SUSPENDED"
      case Resumed => "RESUMED"
      case AlreadyResumed => "ALREADY_RESUMED"
      case Reactivated => "REACTIVATED"
    }

    /** The replies of the guard branches: each returns before anything is changed. */
    predicate IsRejection() {
      || Unknown? || BlockedSensor? || AlarmNotActive? || DisarmRequired?
      || AlreadyBlocked? || Emergency? || AlreadyEmergency? || NormalOperation?
      || AlreadySuspended? || AlreadyResumed?
    }
  }

  /** Different replies are told apart by their wire strings. */
  lemma NameInjective(a: Reply, b: Reply)
    ensures a.Name() == b.Name() <==> a == b
  {
  }
}
