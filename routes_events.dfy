// The event ingestion endpoint of apps/backend/app/api/routes_events.py:
// the request body is a list of raw events or a single one, each raw event
// is validated into an `EventIn` (its event type checked against the
// allowed set) or dropped, and the valid ones are inserted in one batch.
// The events table is the state the insert changes.
module RoutesEvents {
  import opened Wrappers

  /** `ALLOWED_EVENT_TYPES` */
  const AllowedEventTypes: set<string> := {"impression", "click", "hide", "save", "dwell"}

  /** A JSON value of the request body. */
  datatype Json =
    | JNull
    | JBool(b: bool)
    | JNum(r: real)
    | JStr(s: string)
    | JList(elems: seq<Json>)
    | JObj(fields: map<string, Json>)

  /** A validated event: the three required strings and the object it was
      read from (the optional fields travel with it). */
  datatype Event = Event(userId: string, eventType: string, newsId: string, fields: map<string, Json>)

  datatype HttpError = HttpError(status: nat, detail: string)

  /** The response body: `inserted_count` and `dropped_count`. */
  datatype Response = Response(insertedCount: nat, droppedCount: nat)

  /** `EventIn.validate_event_type` */
  function ValidateEventType(value: string): (r: Result<string, string>)
    ensures r.Ok? <==> value in AllowedEventTypes
    ensures r.Ok? ==> r.value == value
    ensures r.Err? ==> r.error == "invalid event_type"
  {
    if value !in AllowedEventTypes then Err("invalid event_type") else Ok(value)
  }

  /** The string a required field holds, if it holds one. */
  function RequiredString(fields: map<string, Json>, key: string): Option<string>
  {
    if key in fields && fields[key].JStr? then Some(fields[key].s) else None
  }

  /** `EventIn(**raw).dict()`: a raw event that is not an object, lacks one
      of the required strings, carries a disallowed event type, or whose
      optional fields do not coerce (`optionalOk`, pydantic's own field
      checks) raises, and the event is dropped. */
  function ParseEvent(raw: Json, optionalOk: map<string, Json> -> bool): (r: Result<Event, string>)
    ensures r.Ok? ==> raw.JObj? && r.value.fields == raw.fields && optionalOk(raw.fields)
    ensures r.Ok? ==> r.value.eventType in AllowedEventTypes
    ensures r.Ok? ==> RequiredString(raw.fields, "user_id") == Some(r.value.userId)
                      && RequiredString(raw.fields, "event_type") == Some(r.value.eventType)
                      && RequiredString(raw.fields, "news_id") == Some(r.value.newsId)
  {
    if !raw.JObj? then Err("not a mapping")
    else
      var userId := RequiredString(raw.fields, "user_id");
      var eventType := RequiredString(raw.fields, "event_type");
      var newsId := RequiredString(raw.fields, "news_id");
      if userId.None? || eventType.None? || newsId.None? then Err("field required")
      else if !optionalOk(raw.fields) then Err("invalid field")
      else
        match ValidateEventType(eventType.value)
        case Err(e) => Err(e)
        case Ok(t) => Ok(Event(userId.value, t, newsId.value, raw.fields))
  }

  /** An object with the required strings and coercible optional fields is
      accepted exactly when its event type is allowed. */
  lemma ParseEventTypeRule(fields: map<string, Json>, optionalOk: map<string, Json> -> bool)
    requires RequiredString(fields, "user_id").Some? && RequiredString(fields, "news_id").Some?
    requires RequiredString(fields, "event_type").Some? && optionalOk(fields)
    ensures ParseEvent(JObj(fields), optionalOk).Ok? <==> fields["event_type"].s in AllowedEventTypes
  {
  }

  /** The raw events of a body: a list as it is, an object as a list of
      one, anything else a 400. */
  function RawEvents(payload: Json): (r: Result<seq<Json>, HttpError>)
    ensures r.Err? <==> !payload.JList? && !payload.JObj?
    ensures r.Err? ==> r.error == HttpError(400, "invalid payload")
    ensures payload.JList? ==> r == Ok(payload.elems)
    ensures payload.JObj? ==> r == Ok([payload])
  {
    match payload
    case JList(elems) => Ok(elems)
    case JObj(_) => Ok([payload])
    case _ => Err(HttpError(400, "invalid payload"))
  }

  /** The events that validate, in request order. */
  function ValidEvents(raws: seq<Json>, optionalOk: map<string, Json> -> bool): seq<Event>
  {
    if raws == [] then []
    else
      var prev := ValidEvents(raws[..|raws| - 1], optionalOk);
      match ParseEvent(raws[|raws| - 1], optionalOk)
      case Ok(e) => prev + [e]
      case Err(_) => prev
  }

  /** How many raw events fail validation. */
  function DroppedCount(raws: seq<Json>, optionalOk: map<string, Json> -> bool): nat
  {
    if raws == [] then 0
    else DroppedCount(raws[1..], optionalOk) + (if ParseEvent(raws[0], optionalOk).Err? then 1 else 0)
  }

  /** Every kept event has an allowed type and comes from one of the raw
      events; the kept ones are the raw events that parse. */
  lemma {:induction false} ValidEventsSound(raws: seq<Json>, optionalOk: map<string, Json> -> bool)
    ensures |ValidEvents(raws, optionalOk)| <= |raws|
    ensures forall e :: e in ValidEvents(raws, optionalOk) ==>
      e.eventType in AllowedEventTypes && exists i :: 0 <= i < |raws| && ParseEvent(raws[i], optionalOk) == Ok(e)
  {
    if raws != [] {
      var p := raws[..|raws| - 1];
      ValidEventsSound(p, optionalOk);
      forall e | e in ValidEvents(p, optionalOk)
        ensures exists i :: 0 <= i < |raws| && ParseEvent(raws[i], optionalOk) == Ok(e)
      {
        var i :| 0 <= i < |p| && ParseEvent(p[i], optionalOk) == Ok(e);
        assert raws[i] == p[i];
      }
    }
  }

  /** Kept plus dropped is the number of raw events. */
  lemma {:induction false} ValidPlusDropped(raws: seq<Json>, optionalOk: map<string, Json> -> bool)
    ensures |ValidEvents(raws, optionalOk)| + DroppedCount(raws, optionalOk) == |raws|
    decreases |raws|
  {
    if raws != [] {
      var n := |raws| - 1;
      if n == 0 {
        assert raws[..n] == [] && raws[1..] == [];
      } else {
        ValidPlusDropped(raws[..n], optionalOk);
        ValidPlusDropped(raws[1..], optionalOk);
        ValidPlusDropped(raws[1..][..n - 1], optionalOk);
        assert raws[1..][..n - 1] == raws[..n][1..];
        DroppedSnoc(raws[..n], raws[n], optionalOk);
        assert raws[..n] + [raws[n]] == raws;
      }
    }
  }

  /** Dropped counts add up over a last element. */
  lemma {:induction false} DroppedSnoc(raws: seq<Json>, raw: Json, optionalOk: map<string, Json> -> bool)
    ensures DroppedCount(raws + [raw], optionalOk) ==
      DroppedCount(raws, optionalOk) + (if ParseEvent(raw, optionalOk).Err? then 1 else 0)
    decreases |raws|
  {
    if raws != [] {
      assert (raws + [raw])[1..] == raws[1..] + [raw];
      DroppedSnoc(raws[1..], raw, optionalOk);
    }
  }

  /** The single impression of the endpoint's test body is kept. */
  lemma SingleImpressionKept(fields: map<string, Json>, optionalOk: map<string, Json> -> bool)
    requires "user_id" in fields && "event_type" in fields && "news_id" in fields
    requires fields["user_id"] == JStr("test-user-1") && fields["news_id"] == JStr("news-123")
    requires fields["event_type"] == JStr("impression") && optionalOk(fields)
    ensures |ValidEvents([JObj(fields)], optionalOk)| == 1
    ensures DroppedCount([JObj(fields)], optionalOk) == 0
  {
    assert "impression" in AllowedEventTypes;
    assert [JObj(fields)][..0] == [];
    assert [JObj(fields)][1..] == [];
  }

  /** The validation loop of `ingest_events`. */
  method ValidateAll(raws: seq<Json>, optionalOk: map<string, Json> -> bool)
    returns (valid: seq<Event>, dropped: nat)
    ensures valid == ValidEvents(raws, optionalOk)
    ensures |valid| + dropped == |raws|
    ensures dropped == DroppedCount(raws, optionalOk)
  {
    valid, dropped := [], 0;
    for i := 0 to |raws|
      invariant valid == ValidEvents(raws[..i], optionalOk)
      invariant |valid| + dropped == i
    {
      assert raws[..i + 1][..i] == raws[..i];
      match ParseEvent(raws[i], optionalOk) {
        case Ok(e) =>
          valid := valid + [e];
        case Err(_) =>
          dropped := dropped + 1;
      }
    }
    assert raws[..|raws|] == raws;
    ValidPlusDropped(raws, optionalOk);
  }

  /** The `events` table. */
  class EventStore {
    var events: seq<Event>

    constructor(rows: seq<Event>)
      ensures events == rows
    {
      events := rows;
    }

    /** `insert_events`: nothing for an empty batch, otherwise every event
        appended; the count inserted is returned. */
    method InsertEvents(batch: seq<Event>) returns (n: nat)
      modifies this
      ensures events == old(events) + batch
      ensures n == |batch|
    {
      if batch == [] {
        assert old(events) + batch == events;
        return 0;
      }
      events := events + batch;
      n := |batch|;
    }
  }

  /** `ingest_events`: a 400 for a body that is neither a list nor an
      object; otherwise the valid events are inserted (the table untouched
      when there is none) and the counts reported. */
  method IngestEvents(store: EventStore, payload: Json, optionalOk: map<string, Json> -> bool)
    returns (r: Result<Response, HttpError>)
    modifies store
    ensures r.Err? <==> RawEvents(payload).Err?
    ensures r.Err? ==> r.error.status == 400 && store.events == old(store.events)
    ensures r.Ok? ==>
      var raws := RawEvents(payload).value;
      var valid := ValidEvents(raws, optionalOk);
      store.events == old(store.events) + valid &&
      r.value == Response(|valid|, DroppedCount(raws, optionalOk)) &&
      r.value.insertedCount + r.value.droppedCount == |raws|
  {
    var raws := RawEvents(payload);
    if raws.Err? {
      return Err(raws.error);
    }
    var valid, dropped := ValidateAll(raws.value, optionalOk);
    if valid == [] {
      assert old(store.events) + valid == store.events;
      return Ok(Response(0, dropped));
    }
    var inserted := store.InsertEvents(valid);
    r := Ok(Response(inserted, dropped));
  }
}
