/**
 * The intake draft of src/context/SubmissionContext.tsx: loading it from
 * local storage, the record updates the form pages make, and the two submit
 * operations, which in this demo always store a fixed record.
 */
module SubmissionContext {
  import opened Wrappers
  import opened Types
  import opened Json
  import opened Storage

  const DraftKey: string := "draft"

  datatype Draft = Draft(
    mode: Mode,
    issueType: Option<string>,
    urgency: Option<Urgency>,
    responsePref: Option<ResponsePref>,
    message: Option<string>,
    consentLevel: Option<ConsentLevel>
  )

  /** `Partial<Draft>`: what the draft key decodes to, every field optional. */
  datatype PartialDraft = PartialDraft(
    mode: Option<Mode>,
    issueType: Option<string>,
    urgency: Option<Urgency>,
    responsePref: Option<ResponsePref>,
    message: Option<string>,
    consentLevel: Option<ConsentLevel>
  )

  /** `{ mode: "anonymous" }`. */
  const InitialDraft: Draft := Draft(Anonymous, None, None, None, None, None)

  /** The draft as a partial record, as `JSON.stringify` writes it. */
  function ToPartial(d: Draft): PartialDraft
  {
    PartialDraft(Some(d.mode), d.issueType, d.urgency, d.responsePref, d.message, d.consentLevel)
  }

  /**
   * `loadDraft`: an absent, empty or undecodable item gives the initial
   * draft; otherwise the decoded fields, with the mode defaulting to anonymous.
   */
  function LoadDraft(raw: Option<string>, codec: Codec<PartialDraft>): (d: Draft)
    ensures raw.None? || raw == Some("") ==> d == InitialDraft
    ensures raw.Some? && raw.value != "" && codec.decode(raw.value).None? ==> d == InitialDraft
    ensures raw.Some? && raw.value != "" && codec.decode(raw.value).Some? ==>
      var p := codec.decode(raw.value).value;
      d.mode == p.mode.GetOr(Anonymous) && ToPartial(d) == p.(mode := Some(d.mode))
  {
    match raw
    case None => InitialDraft
    case Some(text) =>
      if text == "" then InitialDraft
      else
        match codec.decode(text)
        case None => InitialDraft
        case Some(p) =>
          Draft(p.mode.GetOr(Anonymous), p.issueType, p.urgency, p.responsePref, p.message, p.consentLevel)
  }

  /** `setMode`. */
  function SetMode(d: Draft, mode: Mode): (r: Draft)
    ensures r.mode == mode
    ensures r.(mode := d.mode) == d
  {
    d.(mode := mode)
  }

  /** The argument of `updateIntake`: the keys it carries, each None when absent. */
  datatype IntakePatch = IntakePatch(
    issueType: Option<string>,
    urgency: Option<Urgency>,
    responsePref: Option<ResponsePref>,
    message: Option<string>
  )

  const EmptyPatch: IntakePatch := IntakePatch(None, None, None, None)

  /** A field present in the patch wins over the draft's. */
  function Override<T>(present: Option<T>, current: Option<T>): (r: Option<T>)
    ensures present.Some? ==> r == present
    ensures present.None? ==> r == current
  {
    if present.Some? then present else current
  }

  /** `updateIntake`: `{ ...d, ...data }`. */
  function UpdateIntake(d: Draft, data: IntakePatch): (r: Draft)
    ensures r.mode == d.mode && r.consentLevel == d.consentLevel
    ensures data.issueType.Some? ==> r.issueType == data.issueType
    ensures data.issueType.None? ==> r.issueType == d.issueType
    ensures data.urgency.Some? ==> r.urgency == data.urgency
    ensures data.urgency.None? ==> r.urgency == d.urgency
    ensures data.responsePref.Some? ==> r.responsePref == data.responsePref
    ensures data.responsePref.None? ==> r.responsePref == d.responsePref
    ensures data.message.Some? ==> r.message == data.message
    ensures data.message.None? ==> r.message == d.message
  {
    d.(issueType := Override(data.issueType, d.issueType),
       urgency := Override(data.urgency, d.urgency),
       responsePref := Override(data.responsePref, d.responsePref),
       message := Override(data.message, d.message))
  }

  /** `{ ...p, ...q }` on two patches. */
  function MergePatches(p: IntakePatch, q: IntakePatch): IntakePatch
  {
    IntakePatch(Override(q.issueType, p.issueType), Override(q.urgency, p.urgency),
                Override(q.responsePref, p.responsePref), Override(q.message, p.message))
  }

  /** An update with no keys changes nothing. */
  lemma UpdateIntakeEmpty(d: Draft)
    ensures UpdateIntake(d, EmptyPatch) == d
  {
  }

  /** Two updates in a row are one update with the merged keys, later keys winning. */
  lemma UpdateIntakeCompose(d: Draft, p: IntakePatch, q: IntakePatch)
    ensures UpdateIntake(UpdateIntake(d, p), q) == UpdateIntake(d, MergePatches(p, q))
  {
  }

  /** The draft state after `setConsent`. */
  function WithConsent(d: Draft, level: ConsentLevel): (r: Draft)
    ensures r.consentLevel == Some(level)
    ensures r.(consentLevel := d.consentLevel) == d
  {
    d.(consentLevel := Some(level))
  }

  /** `reset`: the draft starts over from `{ mode: "anonymous" }`, whatever it held. */
  function Reset(d: Draft): (r: Draft)
    ensures r == InitialDraft
  {
    InitialDraft
  }

  /** Resetting gives the same draft as a fresh start with nothing stored, whatever the codec. */
  lemma ResetIsFreshStart(d: Draft, codec: Codec<PartialDraft>)
    ensures Reset(d) == LoadDraft(None, codec)
  {
  }

  /** The `{ level }` payload of a `set_consent` event. */
  function ConsentPayload(level: ConsentLevel): Payload
  {
    map["level" := Str(ConsentName(level))]
  }

  /** `setConsent`: only the consent level changes, and one `set_consent` event is logged. */
  method SetConsent(store: Store, d: Draft, level: ConsentLevel, eventId: string, now: int) returns (next: Draft)
    requires store.Valid()
    modifies store
    ensures next == WithConsent(d, level)
    ensures store.GetEvents() == old(store.GetEvents()) + [EventLog(eventId, now, EventType.SetConsent, Some(ConsentPayload(level)))]
    ensures store.GetSubmissions() == old(store.GetSubmissions())
    ensures store.items - {EventsKey} == old(store.items) - {EventsKey}
  {
    next := WithConsent(d, level);
    store.LogEvent(EventType.SetConsent, Some(ConsentPayload(level)), eventId, now);
  }

  /** The fixed record the demo submits; only the response preference can vary. */
  function DemoSubmission(id: string, now: int, pref: ResponsePref): (s: Submission)
    ensures s.id == id && s.timestamp == now && s.status == New && s.responsePref == pref
  {
    Submission(id, now, Anonymous, "demo", Medium, pref, NoConsent, false, Some("Demo submission"), New)
  }

  /** The `{ id, mode }` payload of a `submitted` event. */
  function SubmittedPayload(s: Submission): Payload
  {
    map["id" := Str(s.id), "mode" := Str(ModeName(s.mode))]
  }

  /**
   * `submit`: always yields a record; it is stored in front of the others and
   * one `submitted` event carrying its id is logged. `id`/`eventId` stand for
   * `uuidv4()` and `now`/`eventNow` for `Date.now()`.
   */
  method Submit(store: Store, id: string, now: int, eventId: string, eventNow: int) returns (r: Option<Submission>)
    requires store.Valid()
    modifies store
    ensures r == Some(DemoSubmission(id, now, Message))
    ensures store.GetSubmissions() == [r.value] + old(store.GetSubmissions())
    ensures store.GetEvents() == old(store.GetEvents()) + [EventLog(eventId, eventNow, Submitted, Some(SubmittedPayload(r.value)))]
    ensures store.items - {SubmissionsKey, EventsKey} == old(store.items) - {SubmissionsKey, EventsKey}
  {
    var submission := DemoSubmission(id, now, Message);
    store.AddSubmission(submission);
    store.LogEvent(Submitted, Some(SubmittedPayload(submission)), eventId, eventNow);
    r := Some(submission);
  }

  /** `submitWithData`: as `submit`, with the response preference taken from the override when given. */
  method SubmitWithData(store: Store, overrideData: PartialDraft, id: string, now: int, eventId: string,
                        eventNow: int) returns (r: Option<Submission>)
    requires store.Valid()
    modifies store
    ensures r == Some(DemoSubmission(id, now, overrideData.responsePref.GetOr(Message)))
    ensures store.GetSubmissions() == [r.value] + old(store.GetSubmissions())
    ensures store.GetEvents() == old(store.GetEvents()) + [EventLog(eventId, eventNow, Submitted, Some(SubmittedPayload(r.value)))]
    ensures store.items - {SubmissionsKey, EventsKey} == old(store.items) - {SubmissionsKey, EventsKey}
  {
    var submission := DemoSubmission(id, now, overrideData.responsePref.GetOr(Message));
    store.AddSubmission(submission);
    store.LogEvent(Submitted, Some(SubmittedPayload(submission)), eventId, eventNow);
    r := Some(submission);
  }

  /** The effect that writes the draft under its key whenever it changes. */
  method PersistDraft(store: Store, d: Draft, codec: Codec<PartialDraft>)
    modifies store
    ensures store.items == old(store.items)[DraftKey := codec.encode(ToPartial(d))]
  {
    store.SetItem(DraftKey, codec.encode(ToPartial(d)));
  }

  /** A persisted draft is loaded back unchanged. */
  lemma LoadPersistedDraft(d: Draft, codec: Codec<PartialDraft>)
    requires Lawful(codec)
    ensures LoadDraft(Some(codec.encode(ToPartial(d))), codec) == d
  {
    assert codec.encode(ToPartial(d)) != "" && codec.decode(codec.encode(ToPartial(d))) == Some(ToPartial(d));
  }
}
