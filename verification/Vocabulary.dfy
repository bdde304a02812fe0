/** The closed vocabularies of the board and its message-schema registry (schemas.py).

    Message and conversation types reach the service as text. A value inside the
    registry is one of the named constructors; every other text is an `Other...` value,
    so the branches for unknown types stay in the model. */
module Vocabulary {

  datatype Option<+T> = None | Some(value: T)

  const MESSAGE_TYPES: set<string> := {
    "availability_request", "availability_response", "counter_proposal", "confirm", "decline", "needs_clarification",
    "note", "task_assign", "task_report", "task_complete", "task_decline", "task_cancel"}
  const CONVERSATION_TYPES: set<string> := {"internal", "asymmetric", "open"}

  // Texts that name nothing: a registered name has one value only, its own constructor.
  type OtherMessageName = s: string | s !in MESSAGE_TYPES witness ""
  type OtherConversationName = s: string | s !in CONVERSATION_TYPES witness ""

  datatype MessageType =
    | AvailabilityRequest | AvailabilityResponse | CounterProposal | Confirm | Decline
    | NeedsClarification | Note | TaskAssign | TaskReport | TaskComplete | TaskDecline | TaskCancel
    | OtherMessage(name: OtherMessageName)

  datatype ConversationType = Internal | Asymmetric | Open | OtherConversation(name: OtherConversationName)

  datatype ConversationState = ActiveState | CompletedState | CanceledState | ExpiredState

  const MAX_TYPE_LENGTH := 100
  const MAX_NOTE_LENGTH := 4000
  const MAX_DISPLAY_NAME_LENGTH := 255
  const MAX_ACCEPTED_TYPES := 20

  /** The part of a validated payload the service looks at: the sequence number a
      clarification points at, and the text (free text only in a note). */
  datatype Payload = Payload(aboutSeq: int, text: string)

  /** A payload as submitted, with what the schema's own field checks make of it:
      `fields` is `None` when they (or the size cap) reject it. */
  datatype RawPayload = RawPayload(fields: Option<Payload>)

  predicate Registered(t: MessageType) {
    !t.OtherMessage?
  }

  /** Every registered name is short; only other texts can be over-long. */
  predicate NameTooLong(t: MessageType) {
    t.OtherMessage? && |t.name| > MAX_TYPE_LENGTH
  }

  /** The registry: the boundary flag of each (type, version), `None` when unregistered. */
  function BoundaryFlag(t: MessageType, version: int): Option<bool> {
    if version != 1 || t.OtherMessage? then None else Some(!t.Note?)
  }

  /** Registry lookup, then the field checks that later branches rely on. */
  function ValidatePayload(t: MessageType, version: int, raw: RawPayload): Option<Payload> {
    if BoundaryFlag(t, version).None? || raw.fields.None? then None
    else
      var p := raw.fields.value;
      if t.NeedsClarification? && p.aboutSeq < 1 then None
      else if t.Note? && !(1 <= |p.text| <= MAX_NOTE_LENGTH) then None
      else Some(p)
  }
}
