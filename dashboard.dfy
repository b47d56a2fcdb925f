/**
 * The counsellor dashboard of src/pages/Dashboard.tsx: the filtered and
 * sorted view over the stored submissions, the flag/respond buttons and the
 * store actions behind them.
 */
module Dashboard {
  import opened Wrappers
  import opened Types
  import opened Text
  import opened Storage

  /** A filter select: `"all"` or one value. */
  datatype Choice<T> = All | Only(value: T)

  datatype SortMode = Newest | Oldest | ByUrgency

  /** The `priority` table. */
  function Priority(u: Urgency): nat
  {
    match u
    case High => 3
    case Medium => 2
    case Low => 1
  }

  /** The lowercased text a query is looked for in: urgency and mode are not part of it. */
  function SearchText(s: Submission): string
  {
    Lower(Join(" ", [s.issueType, s.message.GetOr(""), s.id, ConsentName(s.consentLevel), StatusName(s.status)]))
  }

  /** `search.trim().toLowerCase()`. */
  function Query(search: string): string
  {
    Lower(Trim(search))
  }

  predicate MatchesChoice<T(==)>(choice: Choice<T>, v: T)
  {
    choice.All? || choice.value == v
  }

  /** The predicate of `submissions.filter`, for an already trimmed and lowercased query `txt`. */
  predicate Passes(s: Submission, urgencyFilter: Choice<Urgency>, consentFilter: Choice<ConsentLevel>, txt: string)
  {
    MatchesChoice(urgencyFilter, s.urgency)
    && MatchesChoice(consentFilter, s.consentLevel)
    && (txt == "" || Contains(SearchText(s), txt))
  }

  /** The records that pass, in their stored order, each as often as it is stored. */
  function Filter(subs: seq<Submission>, urgencyFilter: Choice<Urgency>, consentFilter: Choice<ConsentLevel>,
                  txt: string): (r: seq<Submission>)
    ensures forall x :: multiset(r)[x] == if Passes(x, urgencyFilter, consentFilter, txt) then multiset(subs)[x] else 0
    ensures forall x :: x in r <==> x in subs && Passes(x, urgencyFilter, consentFilter, txt)
  {
    if subs == [] then []
    else
      var rest := Filter(subs[1..], urgencyFilter, consentFilter, txt);
      assert subs == [subs[0]] + subs[1..];
      assert multiset(subs) == multiset{subs[0]} + multiset(subs[1..]);
      if Passes(subs[0], urgencyFilter, consentFilter, txt) then [subs[0]] + rest else rest
  }

  /** `a` may stand before `b` under the comparator of `mode` (comparator value not positive). */
  predicate InOrder(mode: SortMode, a: Submission, b: Submission)
  {
    match mode
    case Newest => a.timestamp >= b.timestamp
    case Oldest => a.timestamp <= b.timestamp
    case ByUrgency =>
      Priority(a.urgency) > Priority(b.urgency)
      || (Priority(a.urgency) == Priority(b.urgency) && a.timestamp >= b.timestamp)
  }

  predicate SortedBy(mode: SortMode, r: seq<Submission>)
  {
    forall i, j :: 0 <= i < j < |r| ==> InOrder(mode, r[i], r[j])
  }

  lemma InOrderTotal(mode: SortMode, a: Submission, b: Submission)
    ensures InOrder(mode, a, b) || InOrder(mode, b, a)
  {
  }

  lemma InOrderTransitive(mode: SortMode, a: Submission, b: Submission, c: Submission)
    requires InOrder(mode, a, b) && InOrder(mode, b, c)
    ensures InOrder(mode, a, c)
  {
  }

  /**
   * `rows.sort(cmp)` as a stable insertion sort: a record moves left past a
   * neighbour only when the comparator puts it strictly first.
   */
  method SortInPlace(a: array<Submission>, mode: SortMode)
    modifies a
    ensures SortedBy(mode, a[..])
    ensures multiset(a[..]) == multiset(old(a[..]))
  {
    var i := 0;
    while i < a.Length
      invariant 0 <= i <= a.Length
      invariant forall k, l :: 0 <= k < l < i ==> InOrder(mode, a[k], a[l])
      invariant multiset(a[..]) == multiset(old(a[..]))
    {
      var j := i;
      while j > 0 && !InOrder(mode, a[j - 1], a[j])
        invariant 0 <= j <= i
        invariant forall k, l :: 0 <= k < l <= i && k != j && l != j ==> InOrder(mode, a[k], a[l])
        invariant forall l :: j < l <= i ==> InOrder(mode, a[j], a[l])
        invariant multiset(a[..]) == multiset(old(a[..]))
      {
        InOrderTotal(mode, a[j - 1], a[j]);
        a[j - 1], a[j] := a[j], a[j - 1];
        j := j - 1;
      }
      forall k | 0 <= k < j
        ensures InOrder(mode, a[k], a[j])
      {
        if k < j - 1 {
          InOrderTransitive(mode, a[k], a[j - 1], a[j]);
        }
      }
      i := i + 1;
    }
  }

  /**
   * The `filtered` memo: the records passing the three filters, sorted by the
   * chosen mode. It is a rearrangement of exactly the passing records.
   */
  method FilterAndSort(submissions: seq<Submission>, urgencyFilter: Choice<Urgency>,
                       consentFilter: Choice<ConsentLevel>, search: string, sort: SortMode)
    returns (rows: seq<Submission>)
    ensures multiset(rows) == multiset(Filter(submissions, urgencyFilter, consentFilter, Query(search)))
    ensures forall x :: x in rows <==> x in submissions && Passes(x, urgencyFilter, consentFilter, Query(search))
    ensures SortedBy(sort, rows)
    ensures sort == Newest ==> forall i, j :: 0 <= i < j < |rows| ==> rows[i].timestamp >= rows[j].timestamp
    ensures sort == Oldest ==> forall i, j :: 0 <= i < j < |rows| ==> rows[i].timestamp <= rows[j].timestamp
    ensures sort == ByUrgency ==> forall i, j :: 0 <= i < j < |rows| ==>
      Priority(rows[i].urgency) >= Priority(rows[j].urgency)
      && (Priority(rows[i].urgency) == Priority(rows[j].urgency) ==> rows[i].timestamp >= rows[j].timestamp)
  {
    var txt := Query(search);
    var passing := Filter(submissions, urgencyFilter, consentFilter, txt);
    rows := SortRows(passing, sort);
    SameElements(rows, passing);
    SortedMeaning(sort, rows);
  }

  /** `rows = rows.sort(cmp)` on the array `filter` returned. */
  method SortRows(rows0: seq<Submission>, sort: SortMode) returns (rows: seq<Submission>)
    ensures multiset(rows) == multiset(rows0)
    ensures SortedBy(sort, rows)
  {
    var a := new Submission[|rows0|](i requires 0 <= i < |rows0| => rows0[i]);
    assert a[..] == rows0;
    SortInPlace(a, sort);
    rows := a[..];
  }

  lemma SameElements(a: seq<Submission>, b: seq<Submission>)
    requires multiset(a) == multiset(b)
    ensures forall x :: x in a <==> x in b
  {
    assert forall x :: x in a <==> x in multiset(a);
    assert forall x :: x in b <==> x in multiset(b);
  }

  /** What sorted means for each of the three comparators. */
  lemma SortedMeaning(sort: SortMode, rows: seq<Submission>)
    requires SortedBy(sort, rows)
    ensures sort == Newest ==> forall i, j :: 0 <= i < j < |rows| ==> rows[i].timestamp >= rows[j].timestamp
    ensures sort == Oldest ==> forall i, j :: 0 <= i < j < |rows| ==> rows[i].timestamp <= rows[j].timestamp
    ensures sort == ByUrgency ==> forall i, j :: 0 <= i < j < |rows| ==>
      Priority(rows[i].urgency) >= Priority(rows[j].urgency)
      && (Priority(rows[i].urgency) == Priority(rows[j].urgency) ==> rows[i].timestamp >= rows[j].timestamp)
  {
    forall i, j | 0 <= i < j < |rows|
      ensures InOrder(sort, rows[i], rows[j])
    {
    }
  }

  /** The Flag button is enabled only on a new record. */
  predicate FlagEnabled(s: Status)
  {
    s == New
  }

  /** The Respond button is enabled unless the record is already responded. */
  predicate RespondEnabled(s: Status)
  {
    s != Responded
  }

  function StatusRank(s: Status): nat
  {
    match s
    case New => 0
    case Flagged => 1
    case Responded => 2
  }

  /**
   * The transitions the two buttons can make on the row they are shown on:
   * new to flagged, new to responded, flagged to responded, and nothing out
   * of responded. Each moves the status strictly forward.
   */
  lemma ButtonTransitions(from: Status, to: Status)
    ensures (FlagEnabled(from) && to == Flagged) || (RespondEnabled(from) && to == Responded)
      <==> (from, to) in {(New, Flagged), (New, Responded), (Flagged, Responded)}
    ensures (FlagEnabled(from) && to == Flagged) || (RespondEnabled(from) && to == Responded)
      ==> StatusRank(to) > StatusRank(from)
    ensures from == Responded ==> !FlagEnabled(from) && !RespondEnabled(from)
  {
  }

  /**
   * With unique ids, an enabled button moves no record's status backward:
   * the clicked record goes forward and every other record is untouched.
   */
  lemma EnabledClickMovesForward(list: seq<Submission>, k: nat, to: Status)
    requires k < |list|
    requires forall i :: 0 <= i < |list| && i != k ==> list[i].id != list[k].id
    requires (FlagEnabled(list[k].status) && to == Flagged) || (RespondEnabled(list[k].status) && to == Responded)
    ensures var r := WithStatus(list, list[k].id, to);
      StatusRank(r[k].status) > StatusRank(list[k].status)
      && forall i :: 0 <= i < |list| && i != k ==> r[i] == list[i]
  {
  }

  /**
   * The update is by id, not by row: when two stored records share an id, a
   * Flag click on the new one sends the responded one back to flagged.
   */
  lemma DuplicateIdReopens(a: Submission, b: Submission)
    requires a.id == b.id && a.status == New && b.status == Responded
    ensures FlagEnabled(a.status)
    ensures WithStatus([a, b], a.id, Flagged)[1].status == Flagged
  {
  }

  /** `onFlag`: every record with `id` becomes flagged and one `flag_case` event is logged; then `refresh`. */
  method OnFlag(store: Store, id: string, eventId: string, now: int) returns (submissions: seq<Submission>)
    requires store.Valid()
    modifies store
    ensures store.GetSubmissions() == WithStatus(old(store.GetSubmissions()), id, Flagged)
    ensures store.GetEvents() == old(store.GetEvents()) + [EventLog(eventId, now, FlagCase, Some(map["id" := Str(id)]))]
    ensures store.items - {SubmissionsKey, EventsKey} == old(store.items) - {SubmissionsKey, EventsKey}
    ensures submissions == store.GetSubmissions()
  {
    store.UpdateSubmissionStatus(id, Flagged);
    store.LogEvent(FlagCase, Some(map["id" := Str(id)]), eventId, now);
    submissions := store.GetSubmissions();
  }

  /** `onRespond`: every record with `id` becomes responded and one `respond_case` event is logged; then `refresh`. */
  method OnRespond(store: Store, id: string, eventId: string, now: int) returns (submissions: seq<Submission>)
    requires store.Valid()
    modifies store
    ensures store.GetSubmissions() == WithStatus(old(store.GetSubmissions()), id, Responded)
    ensures store.GetEvents() == old(store.GetEvents()) + [EventLog(eventId, now, RespondCase, Some(map["id" := Str(id)]))]
    ensures store.items - {SubmissionsKey, EventsKey} == old(store.items) - {SubmissionsKey, EventsKey}
    ensures submissions == store.GetSubmissions()
  {
    store.UpdateSubmissionStatus(id, Responded);
    store.LogEvent(RespondCase, Some(map["id" := Str(id)]), eventId, now);
    submissions := store.GetSubmissions();
  }

  /**
   * `onClear`: clears the store and refreshes only when the user confirmed
   * the dialog; otherwise the list on screen, `current`, stays as it was.
   */
  method OnClear(store: Store, current: seq<Submission>, confirmed: bool) returns (submissions: seq<Submission>)
    modifies store
    ensures confirmed ==> store.items == old(store.items) - {SubmissionsKey, EventsKey} && submissions == []
    ensures !confirmed ==> store.items == old(store.items) && submissions == current
  {
    submissions := current;
    if confirmed {
      store.ClearData();
      submissions := store.GetSubmissions();
    }
  }

  /** `onSeed`: seeds the three demo records and refreshes. */
  method OnSeed(store: Store, now: int, ids: seq<string>, eventIds: seq<string>, eventTimes: seq<int>)
    returns (submissions: seq<Submission>)
    requires store.Valid()
    requires |ids| == 3 && |eventIds| == 3 && |eventTimes| == 3
    modifies store
    ensures store.GetSubmissions() == DemoExamples(now, ids) + old(store.GetSubmissions())
    ensures store.GetEvents() == old(store.GetEvents()) + SeedEvents(DemoExamples(now, ids), eventIds, eventTimes)
    ensures store.items - {SubmissionsKey, EventsKey} == old(store.items) - {SubmissionsKey, EventsKey}
    ensures submissions == store.GetSubmissions()
  {
    store.SeedDemoData(now, ids, eventIds, eventTimes);
    submissions := store.GetSubmissions();
  }

  /** A query of whitespace only filters nothing out. */
  lemma BlankSearchPassesAll(s: Submission, search: string)
    requires forall i :: 0 <= i < |search| ==> IsJsWhitespace(search[i])
    ensures Passes(s, All, All, Query(search))
  {
  }

  /** Urgency and mode are not searched: changing them does not change whether a query matches. */
  lemma SearchIgnoresUrgencyAndMode(s: Submission, u: Urgency, m: Mode, txt: string)
    ensures Passes(s.(urgency := u, mode := m), All, All, txt) == Passes(s, All, All, txt)
  {
  }

  /**
   * Both filters set to `"all"` let every record through; `Only(u)` keeps
   * exactly the records with urgency `u`, and `Only(c)` those with consent `c`.
   */
  lemma UrgencyFilter(s: Submission, u: Urgency, c: ConsentLevel)
    ensures Passes(s, All, All, "")
    ensures Passes(s, Only(u), All, "") <==> s.urgency == u
    ensures Passes(s, All, Only(c), "") <==> s.consentLevel == c
  {
  }

  /** On the seeded records, `urgency = high` keeps exactly the first and `consent = none` exactly the third. */
  lemma SeededFilters(now: int, ids: seq<string>)
    requires |ids| == 3
    ensures Filter(DemoExamples(now, ids), Only(High), All, "") == [DemoExamples(now, ids)[0]]
    ensures Filter(DemoExamples(now, ids), All, Only(NoConsent), "") == [DemoExamples(now, ids)[2]]
  {
    var ex := DemoExamples(now, ids);
    assert ex == [ex[0]] + ([ex[1]] + [ex[2]]);
    assert ex[1..] == [ex[1]] + [ex[2]];
    assert ex[1..][1..] == [ex[2]];
    assert Filter([ex[2]], All, Only(NoConsent), "") == [ex[2]];
  }

  /** Whatever order they are stored in, the seeded records sort by urgency as high, medium, low. */
  lemma SeededUrgencyOrder(now: int, ids: seq<string>, rows: seq<Submission>)
    requires |ids| == 3
    requires multiset(rows) == multiset(DemoExamples(now, ids))
    requires SortedBy(ByUrgency, rows)
    ensures rows == DemoExamples(now, ids)
  {
    var ex := DemoExamples(now, ids);
    assert |rows| == |multiset(rows)| == 3;
    assert forall i :: 0 <= i < 3 ==> rows[i] in multiset(ex);
    assert forall x :: x in multiset(ex) ==> x == ex[0] || x == ex[1] || x == ex[2];
    assert ex[0] in multiset(rows) && ex[1] in multiset(rows) && ex[2] in multiset(rows);
    assert Priority(rows[0].urgency) >= Priority(rows[1].urgency) >= Priority(rows[2].urgency);
  }
}
