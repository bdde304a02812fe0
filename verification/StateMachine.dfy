/** The pure conversation rules (state_machine.py). */
module StateMachine {
  import opened Vocabulary

  predicate IsMessageLegal(state: ConversationState, t: MessageType) {
    Registered(t) && state.ActiveState?
  }

  /** The state a legally posted message of type `t` moves the conversation to, if any. */
  function ResultingState(t: MessageType, allNonOwnersDeclined: bool): Option<ConversationState> {
    match t
    case Confirm => Some(CompletedState)
    case TaskComplete => Some(CompletedState)
    case Decline => if allNonOwnersDeclined then Some(CanceledState) else None
    case TaskDecline => Some(CanceledState)
    case TaskCancel => Some(CanceledState)
    case _ => None
  }

  predicate IsBoundaryCrossingSafe(
    ctype: ConversationType, boundarySafe: bool, senderOwners: set<string>, otherOwners: set<string>)
  {
    match ctype
    case Open => boundarySafe
    case Internal => true
    case OtherConversation(_) => false
    case Asymmetric => boundarySafe || otherOwners <= senderOwners
  }

  /** Closes the conversation whatever the participants' statuses are. */
  predicate Terminal(t: MessageType) {
    t.Confirm? || t.TaskComplete? || t.TaskDecline? || t.TaskCancel?
  }
}
