/**
 * The messages pushed over websockets: a closed family of records, each with
 * an `event` discriminant field and a fixed payload.
 */
module Websocket {
  import opened Domain
  import opened Schemas

  datatype EventType =
    | NewCall | CallAccepted | CallRejected | AvailableTeam
    | MoveStarted | MoveTeam | MoveFinished | AssignedCall | CompletedCall | TroubleCall

  /** The string each discriminant is serialised as. */
  function EventValue(e: EventType): string
  {
    match e
    case NewCall => "new_call"
    case CallAccepted => "call_accepted"
    case CallRejected => "call_rejected"
    case AvailableTeam => "available_team"
    case MoveStarted => "move_started"
    case MoveTeam => "move_team"
    case MoveFinished => "move_finished"
    case AssignedCall => "assigned_call"
    case CompletedCall => "completed_call"
    case TroubleCall => "trouble_call"
  }

  const AllEvents: seq<EventType> :=
    [NewCall, CallAccepted, CallRejected, AvailableTeam, MoveStarted,
     MoveTeam, MoveFinished, AssignedCall, CompletedCall, TroubleCall]

  /** There are exactly ten discriminants and their strings tell them apart. */
  lemma EventValuesDistinct()
    ensures |AllEvents| == 10
    ensures forall e: EventType :: e in AllEvents
    ensures forall i, j :: 0 <= i < j < |AllEvents| ==> EventValue(AllEvents[i]) != EventValue(AllEvents[j])
  {
    forall e: EventType ensures e in AllEvents {
      var i := match e
        case NewCall => 0 case CallAccepted => 1 case CallRejected => 2 case AvailableTeam => 3
        case MoveStarted => 4 case MoveTeam => 5 case MoveFinished => 6 case AssignedCall => 7
        case CompletedCall => 8 case TroubleCall => 9;
      assert AllEvents[i] == e;
    }
  }

  /**
   * One variant per message class. Every variant has the `event` field, and
   * its type is the whole `EventType`: no variant pins its own discriminant.
   */
  datatype WsMessage =
    | NewCallMessage(event: EventType, call: Call)
    | CallAcceptedMessage(event: EventType, callId: int, teamId: int)
    | CallRejectedMessage(event: EventType, callId: int)
    | AvailableTeamMessage(event: EventType, team: Team)
    | MoveStartedMessage(event: EventType)
    | MoveTeamMessage(event: EventType, coordinates: Coordinates)
    | MoveFinishedMessage(event: EventType)
    | AssignedCallMessage(event: EventType, info: CallFullInfo)
    | CompletedCallMessage(event: EventType, callId: int)
    | TroubleCallMessage(event: EventType, callId: int)

  /** The keys of the JSON object a message is dumped to. */
  function JsonKeys(m: WsMessage): (keys: seq<string>)
    ensures |keys| >= 1 && keys[0] == "event"
    ensures "event" !in keys[1..]
  {
    ["event"] +
    match m
    case NewCallMessage(_, _) => ["call"]
    case CallAcceptedMessage(_, _, _) => ["call_id", "team_id"]
    case CallRejectedMessage(_, _) => ["call_id"]
    case AvailableTeamMessage(_, _) => ["team"]
    case MoveStartedMessage(_) => []
    case MoveTeamMessage(_, _) => ["coordinates"]
    case MoveFinishedMessage(_) => []
    case AssignedCallMessage(_, _) => ["call"]
    case CompletedCallMessage(_, _) => ["call_id"]
    case TroubleCallMessage(_, _) => ["call_id"]
  }

  /** The classes the dispatcher channel is typed to carry. */
  predicate IsDispatcherMessage(m: WsMessage)
  {
    m.NewCallMessage? || m.CallAcceptedMessage? || m.CallRejectedMessage? || m.AvailableTeamMessage?
  }

  /** The classes the worker channel is typed to carry. */
  predicate IsWorkerMessage(m: WsMessage)
  {
    m.MoveTeamMessage? || m.MoveFinishedMessage? || m.AssignedCallMessage? || m.CompletedCallMessage? || m.TroubleCallMessage?
  }

  /**
   * The two channels carry disjoint message classes, and "move started" is
   * in neither; the class and the discriminant are independent.
   */
  lemma ChannelsDisjoint(m: WsMessage)
    ensures !(IsDispatcherMessage(m) && IsWorkerMessage(m))
    ensures m.MoveStartedMessage? ==> !IsDispatcherMessage(m) && !IsWorkerMessage(m)
    ensures IsDispatcherMessage(CallRejectedMessage(TroubleCall, 1))
    ensures IsWorkerMessage(TroubleCallMessage(CallRejected, 1))
  {
  }
}
