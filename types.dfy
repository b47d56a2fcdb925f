/**
 * The records kept by the application (src/types.ts): submissions and
 * event-log entries, and the closed string unions their fields range over.
 */
module Types {
  import opened Wrappers

  datatype Urgency = Low | Medium | High
  datatype ConsentLevel = Immediate | CrisisOnly | NoConsent
  datatype ResponsePref = Message | Appointment | Resources
  datatype Mode = Anonymous | Named
  datatype Status = New | Flagged | Responded
  datatype EventType = StartAnonymous | SetConsent | Submitted | FlagCase | RespondCase

  /** The string literal each union member stands for in the source. */
  function UrgencyName(u: Urgency): string {
    match u
    case Low => "low"
    case Medium => "medium"
    case High => "high"
  }

  function ConsentName(c: ConsentLevel): string {
    match c
    case Immediate => "immediate"
    case CrisisOnly => "crisis_only"
    case NoConsent => "none"
  }

  function ResponsePrefName(p: ResponsePref): string {
    match p
    case Message => "message"
    case Appointment => "appointment"
    case Resources => "resources"
  }

  function ModeName(m: Mode): string {
    match m
    case Anonymous => "anonymous"
    case Named => "named"
  }

  function StatusName(s: Status): string {
    match s
    case New => "new"
    case Flagged => "flagged"
    case Responded => "responded"
  }

  /** A submission as stored; `displayName` is never written by the core and is omitted. */
  datatype Submission = Submission(
    id: string,
    timestamp: int,
    mode: Mode,
    issueType: string,
    urgency: Urgency,
    responsePref: ResponsePref,
    consentLevel: ConsentLevel,
    crisisFlag: bool,
    message: Option<string>,
    status: Status
  )

  /** The values the core puts into an event payload (`Record<string, any>`). */
  datatype PayloadValue = Str(s: string) | Bool(b: bool)

  type Payload = map<string, PayloadValue>

  datatype EventLog = EventLog(
    id: string,
    timestamp: int,
    kind: EventType,
    payload: Option<Payload>
  )
}
