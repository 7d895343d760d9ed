/** The content-list query (hooks/useContentItems.ts): the statuses that keep
    the list polling, the poll decision, the normalisation of a fetched page,
    the access-token guard, and the delete and retry mutations, which refresh
    the list by invalidating its query key. */
module ContentItems {
  import opened Externals
  import opened Content

  /** The statuses of an item the server is still working on. */
  const PROCESSING_STATUSES: seq<ContentStatus> :=
    [Pending, Uploading, Processing, Transcribing, Extracting, Parsing, Indexing]

  /** `PROCESSING_STATUSES.includes(v)`: `v` is strictly equal to one of the
      listed names. */
  predicate InFlight(v: Json) {
    exists i :: 0 <= i < |PROCESSING_STATUSES| && v == Str(StatusName(PROCESSING_STATUSES[i]))
  }

  /** The in-flight set is exactly these seven statuses; `text_extracted`,
      `parsed`, `ready` and `failed` are not in it. */
  lemma InFlightExactly(st: ContentStatus)
    ensures InFlight(Str(StatusName(st))) <==>
      st in {Pending, Uploading, Processing, Transcribing, Extracting, Parsing, Indexing}
  {
    if InFlight(Str(StatusName(st))) {
      var i :| 0 <= i < |PROCESSING_STATUSES| && Str(StatusName(st)) == Str(StatusName(PROCESSING_STATUSES[i]));
      StatusNameRoundTrip(st);
      StatusNameRoundTrip(PROCESSING_STATUSES[i]);
    }
    if st in {Pending, Uploading, Processing, Transcribing, Extracting, Parsing, Indexing} {
      var i := if st == Pending then 0 else if st == Uploading then 1 else if st == Processing then 2
        else if st == Transcribing then 3 else if st == Extracting then 4 else if st == Parsing then 5 else 6;
      assert PROCESSING_STATUSES[i] == st;
    }
  }

  /** Only a status name can be in flight: a non-string, or a string naming
      no status, never keeps the list polling. */
  lemma InFlightNamesStatus(v: Json)
    ensures InFlight(v) ==> v.Str? && ParseStatus(v.s).Some? && ParseStatus(v.s).value in PROCESSING_STATUSES
  {
    if InFlight(v) {
      var i :| 0 <= i < |PROCESSING_STATUSES| && v == Str(StatusName(PROCESSING_STATUSES[i]));
      StatusNameRoundTrip(PROCESSING_STATUSES[i]);
    }
  }

  /** `items.some((item) => PROCESSING_STATUSES.includes(item.status))` */
  function AnyInFlight(items: seq<ContentItem>): bool {
    if items == [] then false else InFlight(items[0].status) || AnyInFlight(items[1..])
  }

  lemma {:induction false} AnyInFlightIff(items: seq<ContentItem>)
    ensures AnyInFlight(items) <==> exists i :: 0 <= i < |items| && InFlight(items[i].status)
  {
    if items != [] {
      AnyInFlightIff(items[1..]);
      if exists i :: 0 <= i < |items| && InFlight(items[i].status) {
        var i :| 0 <= i < |items| && InFlight(items[i].status);
        if i > 0 {
          assert items[1..][i - 1] == items[i];
        }
      }
      if AnyInFlight(items[1..]) {
        var j :| 0 <= j < |items[1..]| && InFlight(items[1..][j].status);
        assert items[j + 1] == items[1..][j];
      }
    }
  }

  /** The poll period, in milliseconds, while something is in flight. */
  const POLL_INTERVAL_MS: nat := 3000

  /** `refetchInterval`: None is `false`, no polling. */
  function RefetchInterval(data: Option<seq<ContentItem>>): Option<nat> {
    if data.Some? && AnyInFlight(data.value) then Some(POLL_INTERVAL_MS) else None
  }

  /** The list polls every 3000 ms exactly when some cached item is in flight,
      and not at all otherwise: not before the first fetch, not for an empty
      page, not when every item is finished or failed. */
  lemma RefetchIntervalSpec(data: Option<seq<ContentItem>>)
    ensures RefetchInterval(data) == Some(3000) <==>
      data.Some? && exists i :: 0 <= i < |data.value| && InFlight(data.value[i].status)
    ensures RefetchInterval(data) != Some(3000) ==> RefetchInterval(data).None?
    ensures data.None? || data.value == [] ==> RefetchInterval(data).None?
  {
    if data.Some? {
      AnyInFlightIff(data.value);
    }
  }

  /** A page whose every item has a finished status (`text_extracted`,
      `parsed`, `ready`, `failed`) does not poll. */
  lemma SettledPageDoesNotPoll(items: seq<ContentItem>, names: seq<ContentStatus>)
    requires |names| == |items|
    requires forall i :: 0 <= i < |items| ==>
      names[i] in {TextExtracted, Parsed, Ready, Failed} && items[i].status == Str(StatusName(names[i]))
    ensures RefetchInterval(Some(items)).None?
  {
    AnyInFlightIff(items);
    forall i | 0 <= i < |items| ensures !InFlight(items[i].status) {
      InFlightExactly(names[i]);
    }
  }

  // ---------------------------------------------------------------------------
  // The fetched page
  // ---------------------------------------------------------------------------

  /** `transformContentItem` applied to one element of `items`: a null or
      undefined element throws on its first property read. */
  function TransformElement(v: Json, parse: string -> Option<Json>): Result<ContentItem, Thrown> {
    match RecordOf(v)
    case None => Err(TYPE_ERROR)
    case Some(rec) => TransformContentItem(rec, parse)
  }

  /** `elems.map(transformContentItem)`: elements are transformed in order and
      the first one that throws ends the map. */
  function MapTransform(elems: seq<Json>, parse: string -> Option<Json>): Result<seq<ContentItem>, Thrown>
    decreases |elems|
  {
    if elems == [] then Ok([])
    else
      match TransformElement(elems[0], parse)
      case Err(e) => Err(e)
      case Ok(item) =>
        match MapTransform(elems[1..], parse)
        case Err(e) => Err(e)
        case Ok(rest) => Ok([item] + rest)
  }

  /** The map succeeds exactly when every element transforms, and then yields
      one item per element, in order. */
  lemma {:induction false} MapTransformSpec(elems: seq<Json>, parse: string -> Option<Json>)
    ensures MapTransform(elems, parse).Ok? <==> forall i :: 0 <= i < |elems| ==> TransformElement(elems[i], parse).Ok?
    ensures MapTransform(elems, parse).Ok? ==>
      && |MapTransform(elems, parse).value| == |elems|
      && forall i :: 0 <= i < |elems| ==> MapTransform(elems, parse).value[i] == TransformElement(elems[i], parse).value
    decreases |elems|
  {
    if elems != [] {
      MapTransformSpec(elems[1..], parse);
      forall i | 1 <= i < |elems| ensures elems[1..][i - 1] == elems[i] { }
    }
  }

  /** The `queryFn` after the token and the request: `(response.items || []).map(transformContentItem)`.
      Reading `items` of a null response throws; a truthy non-array `items`
      has no `map`. */
  function ItemsOf(response: Json, parse: string -> Option<Json>): Result<seq<ContentItem>, Thrown> {
    if Nullish(response) then Err(TYPE_ERROR)
    else
      var items := Prop(response, "items");
      if Falsy(items) then Ok([])
      else if items.Arr? then MapTransform(items.elems, parse)
      else Err(ErrorObject("TypeError", "(response.items || []).map is not a function"))
  }

  /** A response without `items` is an empty page; a response with an array
      is normalised element by element, keeping length and order. */
  lemma ItemsOfSpec(response: Json, parse: string -> Option<Json>)
    ensures response.Obj? && "items" !in response.fields ==> ItemsOf(response, parse) == Ok([])
    ensures response.Obj? && "items" in response.fields && response.fields["items"].Arr? ==>
      var elems := response.fields["items"].elems;
      && (ItemsOf(response, parse).Ok? <==> forall i :: 0 <= i < |elems| ==> TransformElement(elems[i], parse).Ok?)
      && (ItemsOf(response, parse).Ok? ==>
            && |ItemsOf(response, parse).value| == |elems|
            && forall i :: 0 <= i < |elems| ==> ItemsOf(response, parse).value[i] == TransformElement(elems[i], parse).value)
  {
    if response.Obj? && "items" in response.fields && response.fields["items"].Arr? {
      var elems := response.fields["items"].elems;
      MapTransformSpec(elems, parse);
    }
  }

  // ---------------------------------------------------------------------------
  // The access token and the query cache
  // ---------------------------------------------------------------------------

  const NO_SESSION: Thrown := ErrorObject("Error", "No active session")

  /** `getAccessToken`: the session's token, or `No active session` when there
      is no session or its token is empty. A rejection of `getSession` itself
      is passed on. */
  function GetAccessToken(session: Result<Option<Session>, Thrown>): (r: Result<string, Thrown>)
    ensures r.Ok? <==> session.Ok? && session.value.Some? && session.value.value.accessToken != ""
    ensures r.Ok? ==> r.value == session.value.value.accessToken
    ensures r.Err? && session.Ok? ==> r.error == NO_SESSION
  {
    match session
    case Err(e) => Err(e)
    case Ok(s) =>
      if s.None? || s.value.accessToken == "" then Err(NO_SESSION) else Ok(s.value.accessToken)
  }

  /** The key of the content-list query. */
  const ITEMS_QUERY_KEY: seq<string> := ["content-items"]

  /** `invalidateQueries({ queryKey: filter })` reaches a query whose key has
      `filter` as a prefix. */
  predicate KeyMatches(filter: seq<string>, key: seq<string>) {
    |filter| <= |key| && key[..|filter|] == filter
  }

  /** The only filters that reach the content-list query are the empty one and
      its own key; `['content']` does not. */
  lemma ItemsKeyFilters(filter: seq<string>)
    ensures KeyMatches(filter, ITEMS_QUERY_KEY) <==> filter == [] || filter == ITEMS_QUERY_KEY
    ensures !KeyMatches(["content"], ITEMS_QUERY_KEY)
  {
    var content: seq<string> := ["content"];
    assert content[0] != ITEMS_QUERY_KEY[0] by {
      assert |content[0]| == 7 && |ITEMS_QUERY_KEY[0]| == 13;
    }
    assert ITEMS_QUERY_KEY[..1] == ITEMS_QUERY_KEY;
  }

  /** A request the query or a mutation sends, with its bearer token. */
  datatype ApiCall =
    | ListItems(token: string)                   // GET /content-items
    | DeleteItemCall(id: string, token: string)  // DELETE /content-items/{id}
    | RetryItemCall(id: string, token: string)   // POST /content-items/{id}/process

  /** The content-list query as the page sees it: the cached list, the poll
      decision derived from it, whether an invalidation has marked it for
      refetching, and what has been sent. */
  class Tracker {
    var data: Option<seq<ContentItem>>
    var nextPoll: Option<nat>
    var stale: bool
    var calls: seq<ApiCall>
    var invalidations: seq<seq<string>>

    ghost predicate Valid()
      reads this
    {
      nextPoll == RefetchInterval(data)
    }

    constructor()
      ensures Valid()
      ensures data.None? && nextPoll.None? && !stale && calls == [] && invalidations == []
    {
      data := None;
      nextPoll := None;
      stale := false;
      calls := [];
      invalidations := [];
    }

    /** `invalidateQueries({ queryKey: filter })` as it reaches this query. */
    method Invalidate(filter: seq<string>)
      modifies this
      ensures invalidations == old(invalidations) + [filter]
      ensures stale == (old(stale) || KeyMatches(filter, ITEMS_QUERY_KEY))
      ensures data == old(data) && nextPoll == old(nextPoll) && calls == old(calls)
    {
      invalidations := invalidations + [filter];
      if KeyMatches(filter, ITEMS_QUERY_KEY) {
        stale := true;
      }
    }

    /** One run of the `queryFn`. Without a token nothing is sent. A success
        replaces the cached list and clears the invalidation; a failure keeps
        the previous list. The poll decision follows the cached list. */
    method Fetch(session: Result<Option<Session>, Thrown>, response: Result<Json, Thrown>, parse: string -> Option<Json>)
      returns (r: Result<seq<ContentItem>, Thrown>)
      requires Valid()
      modifies this
      ensures Valid()
      ensures GetAccessToken(session).Err? ==> r == Err(GetAccessToken(session).error) && calls == old(calls)
      ensures GetAccessToken(session).Ok? ==>
        && calls == old(calls) + [ListItems(GetAccessToken(session).value)]
        && r == (if response.Err? then Err(response.error) else ItemsOf(response.value, parse))
      ensures r.Ok? ==> data == Some(r.value) && !stale
      ensures r.Err? ==> data == old(data) && stale == old(stale)
      ensures invalidations == old(invalidations)
    {
      var token := GetAccessToken(session);
      if token.Err? {
        r := Err(token.error);
      } else {
        calls := calls + [ListItems(token.value)];
        r := if response.Err? then Err(response.error) else ItemsOf(response.value, parse);
        if r.Ok? {
          data := Some(r.value);
          stale := false;
          nextPoll := RefetchInterval(data);
        }
      }
    }

    /** The delete mutation: the request needs a token; only a success
        invalidates the list, and the cached list itself is not touched. */
    method DeleteItem(id: string, session: Result<Option<Session>, Thrown>, outcome: Outcome)
      returns (r: Outcome)
      requires Valid()
      modifies this
      ensures Valid()
      ensures GetAccessToken(session).Err? ==> r == Rejected(GetAccessToken(session).error) && calls == old(calls)
      ensures GetAccessToken(session).Ok? ==>
        calls == old(calls) + [DeleteItemCall(id, GetAccessToken(session).value)] && r == outcome
      ensures r.Resolved? ==> invalidations == old(invalidations) + [ITEMS_QUERY_KEY] && stale
      ensures r.Rejected? ==> invalidations == old(invalidations) && stale == old(stale)
      ensures data == old(data) && nextPoll == old(nextPoll)
    {
      var token := GetAccessToken(session);
      if token.Err? {
        r := Rejected(token.error);
      } else {
        calls := calls + [DeleteItemCall(id, token.value)];
        r := outcome;
        if r.Resolved? {
          Invalidate(ITEMS_QUERY_KEY);
        }
      }
    }

    /** The retry mutation: the server's record of the item is normalised and
        returned; only a success (the request and the normalisation) invalidates
        the list. */
    method RetryItem(id: string, session: Result<Option<Session>, Thrown>, response: Result<Json, Thrown>,
                     parse: string -> Option<Json>)
      returns (r: Result<ContentItem, Thrown>)
      requires Valid()
      modifies this
      ensures Valid()
      ensures GetAccessToken(session).Err? ==> r == Err(GetAccessToken(session).error) && calls == old(calls)
      ensures GetAccessToken(session).Ok? ==>
        && calls == old(calls) + [RetryItemCall(id, GetAccessToken(session).value)]
        && r == (if response.Err? then Err(response.error) else TransformElement(response.value, parse))
      ensures r.Ok? ==> invalidations == old(invalidations) + [ITEMS_QUERY_KEY] && stale
      ensures r.Err? ==> invalidations == old(invalidations) && stale == old(stale)
      ensures data == old(data) && nextPoll == old(nextPoll)
    {
      var token := GetAccessToken(session);
      if token.Err? {
        r := Err(token.error);
      } else {
        calls := calls + [RetryItemCall(id, token.value)];
        r := if response.Err? then Err(response.error) else TransformElement(response.value, parse);
        if r.Ok? {
          Invalidate(ITEMS_QUERY_KEY);
        }
      }
    }
  }
}
