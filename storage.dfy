/**
 * The submission and event store of src/utils/storage.ts: two JSON arrays kept
 * under fixed keys of the browser's local storage, read with a fallback and
 * rewritten whole on every change.
 */
module Storage {
  import opened Wrappers
  import opened Types
  import opened Json

  const SubmissionsKey: string := "submissions"
  const EventsKey: string := "events"

  /**
   * `safeParse`: an absent or empty item, or one that does not decode, reads
   * as `fallback`; otherwise the decoded value.
   */
  function SafeParse<T>(raw: Option<string>, codec: Codec<T>, fallback: T): (r: T)
    ensures raw.None? || raw == Some("") ==> r == fallback
    ensures raw.Some? && raw.value != "" && codec.decode(raw.value).None? ==> r == fallback
    ensures raw.Some? && raw.value != "" && codec.decode(raw.value).Some? ==> r == codec.decode(raw.value).value
  {
    match raw
    case None => fallback
    case Some(text) =>
      if text == "" then fallback
      else codec.decode(text).GetOr(fallback)
  }

  /** What a lawful codec wrote is read back by `safeParse`, whatever the fallback. */
  lemma SafeParseEncoded<T(!new)>(codec: Codec<T>, v: T, fallback: T)
    requires Lawful(codec)
    ensures SafeParse(Some(codec.encode(v)), codec, fallback) == v
  {
    assert codec.encode(v) != "" && codec.decode(codec.encode(v)) == Some(v);
  }

  /**
   * The list after `updateSubmissionStatus`'s `map`: each record whose id is
   * `id` gets `status`, every other record is kept as it is.
   */
  function WithStatus(list: seq<Submission>, id: string, status: Status): (r: seq<Submission>)
    ensures |r| == |list|
    ensures forall i :: 0 <= i < |list| && list[i].id == id ==> r[i] == list[i].(status := status)
    ensures forall i :: 0 <= i < |list| && list[i].id != id ==> r[i] == list[i]
  {
    if list == [] then []
    else
      [if list[0].id == id then list[0].(status := status) else list[0]]
      + WithStatus(list[1..], id, status)
  }

  /** An id no record carries leaves the list as it was. */
  lemma WithStatusUnknownId(list: seq<Submission>, id: string, status: Status)
    requires forall i :: 0 <= i < |list| ==> list[i].id != id
    ensures WithStatus(list, id, status) == list
  {
  }

  /** Ids, order and every field other than the status are kept. */
  lemma WithStatusKeepsRecords(list: seq<Submission>, id: string, status: Status)
    ensures forall i :: 0 <= i < |list| ==> WithStatus(list, id, status)[i].(status := list[i].status) == list[i]
  {
  }

  /** Two status updates of the same id: the second one wins. */
  lemma WithStatusLastWins(list: seq<Submission>, id: string, first: Status, second: Status)
    ensures WithStatus(WithStatus(list, id, first), id, second) == WithStatus(list, id, second)
  {
  }

  /**
   * Flagging and then responding to an id that exactly one record carries
   * leaves that one record responded and every other record unchanged.
   */
  lemma FlagThenRespond(list: seq<Submission>, k: nat)
    requires k < |list|
    requires forall i :: 0 <= i < |list| && i != k ==> list[i].id != list[k].id
    ensures var r := WithStatus(WithStatus(list, list[k].id, Flagged), list[k].id, Responded);
      |r| == |list| && r[k].status == Responded
      && (forall i :: 0 <= i < |r| && r[i].id == list[k].id ==> i == k)
      && (forall i :: 0 <= i < |r| && i != k ==> r[i] == list[i])
  {
  }

  datatype StoreCodecs = StoreCodecs(submissions: Codec<seq<Submission>>, events: Codec<seq<EventLog>>)

  /**
   * The browser's local storage, shared by the whole application, together
   * with the JSON codecs the store uses for its two arrays.
   */
  class Store {
    var items: map<string, string>
    const json: StoreCodecs

    ghost predicate Valid()
    {
      Lawful(json.submissions) && Lawful(json.events)
    }

    constructor(initial: map<string, string>, codecs: StoreCodecs)
      requires Lawful(codecs.submissions) && Lawful(codecs.events)
      ensures items == initial && json == codecs
      ensures Valid()
    {
      items := initial;
      json := codecs;
    }

    /** `localStorage.getItem`. */
    function GetItem(key: string): (r: Option<string>)
      reads this
      ensures r.Some? <==> key in items
      ensures r.Some? ==> r.value == items[key]
    {
      if key in items then Some(items[key]) else None
    }

    /** `localStorage.setItem`; writes are taken to succeed. */
    method SetItem(key: string, value: string)
      modifies this
      ensures items == old(items)[key := value]
    {
      items := items[key := value];
    }

    /** `localStorage.removeItem`. */
    method RemoveItem(key: string)
      modifies this
      ensures items == old(items) - {key}
    {
      items := items - {key};
    }

    /** `getSubmissions`. */
    function GetSubmissions(): (r: seq<Submission>)
      reads this
      ensures SubmissionsKey !in items ==> r == []
    {
      SafeParse(GetItem(SubmissionsKey), json.submissions, [])
    }

    /** `getEvents`. */
    function GetEvents(): (r: seq<EventLog>)
      reads this
      ensures EventsKey !in items ==> r == []
    {
      SafeParse(GetItem(EventsKey), json.events, [])
    }

    /** `setSubmissions`: the whole list is written back under its key. */
    method SetSubmissions(list: seq<Submission>)
      requires Valid()
      modifies this
      ensures items == old(items)[SubmissionsKey := json.submissions.encode(list)]
      ensures GetSubmissions() == list
      ensures GetEvents() == old(GetEvents())
    {
      SetItem(SubmissionsKey, json.submissions.encode(list));
      SafeParseEncoded(json.submissions, list, []);
    }

    /** `addSubmission`: the new record goes in front; ids are not checked for uniqueness. */
    method AddSubmission(sub: Submission)
      requires Valid()
      modifies this
      ensures GetSubmissions() == [sub] + old(GetSubmissions())
      ensures items == old(items)[SubmissionsKey := json.submissions.encode([sub] + old(GetSubmissions()))]
      ensures GetEvents() == old(GetEvents())
    {
      var list := GetSubmissions();
      list := [sub] + list;
      SetSubmissions(list);
    }

    /** `updateSubmissionStatus`: the status map is written back, even when no id matched. */
    method UpdateSubmissionStatus(id: string, status: Status)
      requires Valid()
      modifies this
      ensures GetSubmissions() == WithStatus(old(GetSubmissions()), id, status)
      ensures items == old(items)[SubmissionsKey := json.submissions.encode(WithStatus(old(GetSubmissions()), id, status))]
      ensures GetEvents() == old(GetEvents())
    {
      var list := WithStatus(GetSubmissions(), id, status);
      SetSubmissions(list);
    }

    /**
     * `logEvent`: one entry with the given type and payload is appended; `id`
     * and `now` stand for `uuidv4()` and `Date.now()`.
     */
    method LogEvent(kind: EventType, payload: Option<Payload>, id: string, now: int)
      requires Valid()
      modifies this
      ensures GetEvents() == old(GetEvents()) + [EventLog(id, now, kind, payload)]
      ensures items == old(items)[EventsKey := json.events.encode(old(GetEvents()) + [EventLog(id, now, kind, payload)])]
      ensures GetSubmissions() == old(GetSubmissions())
    {
      var entry := EventLog(id, now, kind, payload);
      var events := GetEvents();
      events := events + [entry];
      SetItem(EventsKey, json.events.encode(events));
      SafeParseEncoded(json.events, events, []);
    }

    /** `clearData`: both keys are removed; every other key is left alone. */
    method ClearData()
      modifies this
      ensures items == old(items) - {SubmissionsKey, EventsKey}
      ensures GetSubmissions() == [] && GetEvents() == []
    {
      RemoveItem(SubmissionsKey);
      RemoveItem(EventsKey);
    }

    /**
     * `seedDemoData`: the three examples go in front of the stored records,
     * then one `submitted` event per example is logged, in order.
     */
    method SeedDemoData(now: int, ids: seq<string>, eventIds: seq<string>, eventTimes: seq<int>)
      requires Valid()
      requires |ids| == 3 && |eventIds| == 3 && |eventTimes| == 3
      modifies this
      ensures GetSubmissions() == DemoExamples(now, ids) + old(GetSubmissions())
      ensures GetEvents() == old(GetEvents()) + SeedEvents(DemoExamples(now, ids), eventIds, eventTimes)
      ensures items - {SubmissionsKey, EventsKey} == old(items) - {SubmissionsKey, EventsKey}
    {
      var examples := DemoExamples(now, ids);
      var current := GetSubmissions();
      SetSubmissions(examples + current);
      ghost var events0 := GetEvents();
      ghost var seeded := SeedEvents(examples, eventIds, eventTimes);
      for i := 0 to 3
        invariant GetSubmissions() == examples + current
        invariant GetEvents() == events0 + seeded[..i]
        invariant items - {SubmissionsKey, EventsKey} == old(items) - {SubmissionsKey, EventsKey}
      {
        LogEvent(Submitted, Some(SeededPayload(examples[i].id)), eventIds[i], eventTimes[i]);
        assert seeded[..i + 1] == seeded[..i] + [seeded[i]];
      }
      assert seeded[..3] == seeded;
    }
  }

  const Minute: int := 1000 * 60

  /**
   * The three demo submissions, one per consent level and one per urgency,
   * 45, 20 and 5 minutes before `now`; `ids` stands for three `uuidv4()` calls.
   */
  function DemoExamples(now: int, ids: seq<string>): (r: seq<Submission>)
    requires |ids| == 3
    ensures |r| == 3
    ensures forall i :: 0 <= i < 3 ==> r[i].id == ids[i] && r[i].status == New && r[i].mode == Anonymous
    ensures {r[0].consentLevel, r[1].consentLevel, r[2].consentLevel} == {Immediate, CrisisOnly, NoConsent}
    ensures {r[0].urgency, r[1].urgency, r[2].urgency} == {Low, Medium, High}
    ensures r[0].timestamp < r[1].timestamp < r[2].timestamp < now
    ensures r[0].urgency == High && r[0].consentLevel == Immediate && r[0].responsePref == Message
      && r[0].crisisFlag && r[0].timestamp == now - Minute * 45
    ensures r[1].urgency == Medium && r[1].consentLevel == CrisisOnly && r[1].responsePref == Appointment
      && !r[1].crisisFlag && r[1].timestamp == now - Minute * 20
    ensures r[2].urgency == Low && r[2].consentLevel == NoConsent && r[2].responsePref == Resources
      && !r[2].crisisFlag && r[2].timestamp == now - Minute * 5
  {
    [ Submission(ids[0], now - Minute * 45, Anonymous, "Emotions/feelings", High, Message, Immediate,
                 true, Some("Feeling overwhelmed before exams."), New),
      Submission(ids[1], now - Minute * 20, Anonymous, "Academic", Medium, Appointment, CrisisOnly,
                 false, Some("Struggling with assignments and focus."), New),
      Submission(ids[2], now - Minute * 5, Anonymous, "Family/peers", Low, Resources, NoConsent,
                 false, Some("Conflict with a friend."), New) ]
  }

  /** The payload `{ id, seeded: true }` of a seeding event. */
  function SeededPayload(id: string): Payload
  {
    map["id" := Str(id), "seeded" := Bool(true)]
  }

  /** The events `seedDemoData` logs: one `submitted` event per example, in the examples' order. */
  function SeedEvents(examples: seq<Submission>, eventIds: seq<string>, eventTimes: seq<int>): (r: seq<EventLog>)
    requires |eventIds| == |examples| && |eventTimes| == |examples|
    ensures |r| == |examples|
    ensures forall i :: 0 <= i < |r| ==>
      r[i].kind == Submitted && r[i].payload == Some(SeededPayload(examples[i].id))
      && r[i].id == eventIds[i] && r[i].timestamp == eventTimes[i]
  {
    seq(|examples|, i requires 0 <= i < |examples| =>
      EventLog(eventIds[i], eventTimes[i], Submitted, Some(SeededPayload(examples[i].id))))
  }

  /** Seeding twice adds six records and six seeded `submitted` events: nothing is deduplicated. */
  method SeedTwice(store: Store, now1: int, ids1: seq<string>, eventIds1: seq<string>, eventTimes1: seq<int>,
                   now2: int, ids2: seq<string>, eventIds2: seq<string>, eventTimes2: seq<int>)
    requires store.Valid()
    requires |ids1| == 3 && |eventIds1| == 3 && |eventTimes1| == 3
    requires |ids2| == 3 && |eventIds2| == 3 && |eventTimes2| == 3
    modifies store
    ensures |store.GetSubmissions()| == |old(store.GetSubmissions())| + 6
    ensures |store.GetEvents()| == |old(store.GetEvents())| + 6
    ensures forall i :: |old(store.GetEvents())| <= i < |store.GetEvents()| ==>
      store.GetEvents()[i].kind == Submitted && store.GetEvents()[i].payload.Some?
      && "seeded" in store.GetEvents()[i].payload.value
      && store.GetEvents()[i].payload.value["seeded"] == Bool(true)
  {
    store.SeedDemoData(now1, ids1, eventIds1, eventTimes1);
    store.SeedDemoData(now2, ids2, eventIds2, eventTimes2);
  }
}
