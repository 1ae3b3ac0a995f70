/** The JSON API layer: page arithmetic for listings, the API error classes
    and the decorator that turns a handler's return value or exception into
    a JSON payload. JSON values are modelled as a tree; their text encoding
    is not. */
module Apis {
  import opened Outcomes
  import opened Text

  // ---------------------------------------------------------------------
  // Python integer division
  // ---------------------------------------------------------------------

  /** Python's `a // b` (rounds toward negative infinity). */
  function FloorDiv(a: int, b: int): int
    requires b != 0
  {
    if b > 0 then a / b else (-a) / (-b)
  }

  /** Python's `a % b`: takes the sign of the divisor. */
  function FloorMod(a: int, b: int): int
    requires b != 0
  {
    a - b * FloorDiv(a, b)
  }

  /** The quotient and remainder put `a` back together, the remainder lies
      between 0 and the divisor, and for a positive divisor both agree with
      the Euclidean ones. */
  lemma FloorDivMod(a: int, b: int)
    requires b != 0
    ensures FloorDiv(a, b) * b + FloorMod(a, b) == a
    ensures b > 0 ==> 0 <= FloorMod(a, b) < b && FloorDiv(a, b) == a / b && FloorMod(a, b) == a % b
    ensures b < 0 ==> b < FloorMod(a, b) <= 0
  {
    if b < 0 {
      var q := (-a) / (-b);
      assert (-a) == q * (-b) + (-a) % (-b);
      assert FloorMod(a, b) == -((-a) % (-b));
    }
  }

  // ---------------------------------------------------------------------
  // Pages
  // ---------------------------------------------------------------------

  /** A page of a listing, as `Page.__init__` leaves it. */
  datatype Page = Page(
    itemCount: int,
    pageSize: int,
    pageCount: int,
    pageIndex: int,
    offset: int,
    limit: int,
    hasNext: bool,
    hasPrevious: bool)

  const DefaultPageIndex := 1
  const DefaultPageSize := 15

  /** The exception paging can raise: ZeroDivisionError. */
  datatype Failure = ZeroDivision

  /** The number of pages: whole pages plus one for a partial page. */
  function PageCount(itemCount: int, pageSize: int): int
    requires pageSize != 0
  {
    FloorDiv(itemCount, pageSize) + (if FloorMod(itemCount, pageSize) > 0 then 1 else 0)
  }

  /** With a positive page size the count is the ceiling of the quotient:
      the pages hold every item, and one page fewer would not. */
  lemma PageCountIsCeiling(itemCount: int, pageSize: int)
    requires pageSize > 0
    ensures (PageCount(itemCount, pageSize) - 1) * pageSize < itemCount <= PageCount(itemCount, pageSize) * pageSize
  {
    FloorDivMod(itemCount, pageSize);
    var q := FloorDiv(itemCount, pageSize);
    var r := FloorMod(itemCount, pageSize);
    if r > 0 {
      assert (q + 1) * pageSize == q * pageSize + pageSize;
    } else {
      assert (q - 1) * pageSize == q * pageSize - pageSize;
    }
  }

  /** `Page(item_count, page_index, page_size)`: an index outside
      1..page_count, or an empty listing, falls back to the first page with
      nothing to fetch; a page size of 0 raises ZeroDivisionError. */
  function NewPage(itemCount: int, pageIndex: int, pageSize: int): (r: Result<Page, Failure>)
    ensures r.Err? <==> pageSize == 0
    ensures r.Err? ==> r.error == ZeroDivision
    ensures r.Ok? ==> r.value.itemCount == itemCount && r.value.pageSize == pageSize
    ensures r.Ok? && pageSize > 0 ==>
              (r.value.pageCount - 1) * pageSize < itemCount <= r.value.pageCount * pageSize
    ensures r.Ok? ==>
              var p := r.value;
              if itemCount == 0 || pageIndex < 1 || pageIndex > p.pageCount
              then p.pageIndex == 1 && p.offset == 0 && p.limit == 0
              else p.pageIndex == pageIndex && p.offset == pageSize * (pageIndex - 1) && p.limit == pageSize
    ensures r.Ok? ==> (r.value.hasNext <==> r.value.pageIndex < r.value.pageCount)
    ensures r.Ok? ==> (r.value.hasPrevious <==> r.value.pageIndex > 1)
  {
    if pageSize == 0 then Err(ZeroDivision)
    else
      var count := PageCount(itemCount, pageSize);
      assert pageSize > 0 ==> (count - 1) * pageSize < itemCount <= count * pageSize by {
        if pageSize > 0 { PageCountIsCeiling(itemCount, pageSize); }
      }
      var reset := itemCount == 0 || pageIndex < 1 || pageIndex > count;
      var index := if reset then 1 else pageIndex;
      var offset := if reset then 0 else pageSize * (pageIndex - 1);
      var limit := if reset then 0 else pageSize;
      Ok(Page(itemCount, pageSize, count, index, offset, limit, index < count, index > 1))
  }

  /** `Page(item_count, page_index=1, page_size=15)` with the keywords
      given or not: without a page size, pages hold 15 items and the call
      cannot fail; without an index, the first page is shown, starting at
      the first item, with no previous page. */
  function PageWithDefaults(itemCount: int, pageIndex: Option<int>, pageSize: Option<int>): (r: Result<Page, Failure>)
    ensures pageSize.None? ==> r.Ok? && r.value.pageSize == 15
    ensures pageIndex.None? && r.Ok? ==> r.value.pageIndex == 1 && r.value.offset == 0 && !r.value.hasPrevious
    ensures pageIndex.None? && r.Ok? && itemCount > 0 && r.value.pageSize > 0 ==> r.value.limit == r.value.pageSize
  {
    NewPage(itemCount, pageIndex.GetOr(DefaultPageIndex), pageSize.GetOr(DefaultPageSize))
  }

  /** Every item of a non-empty listing is on exactly the page its position
      names: that page is valid and its window covers the item. */
  lemma EveryItemOnItsPage(itemCount: int, pageSize: int, k: int)
    requires pageSize > 0 && 0 <= k < itemCount
    ensures var p := NewPage(itemCount, k / pageSize + 1, pageSize).value;
            && p.pageIndex == k / pageSize + 1
            && p.offset <= k < p.offset + p.limit
  {
    PageCountIsCeiling(itemCount, pageSize);
    var q := k / pageSize;
    QuotientBelow(k, pageSize, PageCount(itemCount, pageSize));
    assert pageSize * (q + 1 - 1) == q * pageSize;
    assert q * pageSize <= k < q * pageSize + pageSize;
  }

  lemma QuotientBelow(k: int, d: int, count: int)
    requires d > 0 && 0 <= k < count * d
    ensures k / d < count
  {
    var q := k / d;
    assert q * d <= k;
    assert (count - q) * d > 0;
  }

  /** Following `has_next` lands on a valid page, the next one. */
  lemma NextPageIsValid(itemCount: int, pageIndex: int, pageSize: int)
    requires pageSize != 0
    requires NewPage(itemCount, pageIndex, pageSize).value.hasNext
    ensures var p := NewPage(itemCount, pageIndex, pageSize).value;
            NewPage(itemCount, p.pageIndex + 1, pageSize).value.pageIndex == p.pageIndex + 1
  {
  }

  /** The page a bad index falls back to has no previous page. */
  lemma FallbackHasNoPrevious(itemCount: int, pageIndex: int, pageSize: int)
    requires pageSize != 0
    requires itemCount == 0 || pageIndex < 1 || pageIndex > PageCount(itemCount, pageSize)
    ensures !NewPage(itemCount, pageIndex, pageSize).value.hasPrevious
    ensures NewPage(itemCount, pageIndex, pageSize).value.limit == 0
  {
  }

  /** `Page.__str__` (also its `repr`). */
  function PageText(p: Page): string {
    "item_count: " + IntText(p.itemCount) + ", page_count: " + IntText(p.pageCount)
      + ", page_index: " + IntText(p.pageIndex) + ", page_size: " + IntText(p.pageSize)
      + ", offset: " + IntText(p.offset) + ", limit: " + IntText(p.limit)
  }

  // ---------------------------------------------------------------------
  // JSON values
  // ---------------------------------------------------------------------

  /** A JSON value. */
  datatype Json =
    | JNull
    | JBool(b: bool)
    | JInt(i: int)
    | JStr(s: string)
    | JArray(items: seq<Json>)
    | JObject(fields: map<string, Json>)

  /** A handler's return value: JSON-ready data, a page, or some other
      object that JSON cannot encode, known by its `str` and its `repr`. */
  datatype Obj =
    | ONull
    | OBool(b: bool)
    | OInt(i: int)
    | OStr(s: string)
    | OList(items: seq<Obj>)
    | ODict(entries: seq<Entry>)
    | OPage(page: Page)
    | Opaque(str: string, repr: string)

  /** One dictionary entry. */
  datatype Entry = Entry(key: string, value: Obj)

  /** `_dump(page)`: the five page attributes a client needs. */
  function DumpPage(p: Page): (j: Json)
    ensures j.JObject?
    ensures j.fields.Keys == {"page_index", "page_count", "item_count", "has_next", "has_previous"}
  {
    JObject(map["page_index" := JInt(p.pageIndex), "page_count" := JInt(p.pageCount),
                "item_count" := JInt(p.itemCount), "has_next" := JBool(p.hasNext),
                "has_previous" := JBool(p.hasPrevious)])
  }

  /** The dump carries the page's navigation state unchanged. */
  lemma DumpPageReadsBack(p: Page)
    ensures DumpPage(p).fields["page_index"] == JInt(p.pageIndex)
    ensures DumpPage(p).fields["page_count"] == JInt(p.pageCount)
    ensures DumpPage(p).fields["item_count"] == JInt(p.itemCount)
    ensures DumpPage(p).fields["has_next"] == JBool(p.hasNext)
    ensures DumpPage(p).fields["has_previous"] == JBool(p.hasPrevious)
  {
  }

  /** The TypeError the encoder raises for an object it cannot encode. */
  datatype TypeError = TypeError(message: string)

  /** `json.dumps(obj)` as a tree, with `_dump` as the fallback for objects
      JSON cannot encode when `hooked`, and the encoder's own TypeError
      otherwise. The encoder's message shows the object's `repr`, `_dump`'s
      shows its `str` (the two agree for a `Page`). A dictionary's later
      entry for a key wins. */
  function Encode(o: Obj, hooked: bool): (r: Result<Json, TypeError>)
    ensures !hooked && o.OPage? ==> r == Err(TypeError(PageText(o.page) + " is not JSON serializable"))
    ensures hooked && o.OPage? ==> r == Ok(DumpPage(o.page))
    ensures o.Opaque? && hooked ==> r == Err(TypeError(o.str + " is not JSON serializable"))
    ensures o.Opaque? && !hooked ==> r == Err(TypeError(o.repr + " is not JSON serializable"))
    decreases o
  {
    match o
    case ONull => Ok(JNull)
    case OBool(b) => Ok(JBool(b))
    case OInt(i) => Ok(JInt(i))
    case OStr(s) => Ok(JStr(s))
    case OPage(p) =>
      if hooked then Ok(DumpPage(p)) else Err(TypeError(PageText(p) + " is not JSON serializable"))
    case Opaque(str, repr) => Err(TypeError((if hooked then str else repr) + " is not JSON serializable"))
    case OList(items) => EncodeList(items, hooked)
    case ODict(entries) => EncodeDict(entries, hooked)
  }

  /** A list encodes when every item does, item by item in order; otherwise
      the encoder raises the error of an item that does not encode. */
  function EncodeList(items: seq<Obj>, hooked: bool): (r: Result<Json, TypeError>)
    ensures r.Ok? <==> forall i :: 0 <= i < |items| ==> Encode(items[i], hooked).Ok?
    ensures r.Ok? ==> r.value.JArray? && |r.value.items| == |items|
    ensures r.Ok? ==> forall i :: 0 <= i < |items| ==> r.value.items[i] == Encode(items[i], hooked).value
    ensures r.Err? ==> exists i :: 0 <= i < |items| && Encode(items[i], hooked) == Err(r.error)
    decreases items
  {
    if |items| == 0 then Ok(JArray([]))
    else
      match Encode(items[0], hooked)
      case Err(e) => Err(e)
      case Ok(j) =>
        match EncodeList(items[1..], hooked)
        case Err(e) => Err(e)
        case Ok(rest) => Ok(JArray([j] + rest.items))
  }

  /** The keys a list of dictionary entries names. */
  function EntryKeys(entries: seq<Entry>): set<string> {
    set i | 0 <= i < |entries| :: entries[i].key
  }

  /** No later entry names the same key as entry `i`. */
  predicate LastForKey(entries: seq<Entry>, i: int)
    requires 0 <= i < |entries|
  {
    forall j :: i < j < |entries| ==> entries[j].key != entries[i].key
  }

  /** A dictionary of encodable values becomes an object with the same keys;
      the first value that fails makes the whole encoding fail. */
  function EncodeDict(entries: seq<Entry>, hooked: bool): (r: Result<Json, TypeError>)
    ensures r.Ok? ==> r.value.JObject? && r.value.fields.Keys == EntryKeys(entries)
    decreases entries
  {
    if |entries| == 0 then Ok(JObject(map[]))
    else
      var n := |entries|;
      var last := entries[n - 1];
      assert last in entries;
      match EncodeDict(entries[..n - 1], hooked)
      case Err(e) => Err(e)
      case Ok(f) =>
        match Encode(last.value, hooked)
        case Err(e) => Err(e)
        case Ok(j) =>
          EntryKeysSnoc(entries);
          Ok(JObject(f.fields[last.key := j]))
  }

  /** A dictionary encodes exactly when every value does; when it does not,
      the encoder raises the error of a value that does not encode. */
  lemma {:induction false} EncodeDictSucceedsIff(entries: seq<Entry>, hooked: bool)
    ensures EncodeDict(entries, hooked).Ok? <==> forall i :: 0 <= i < |entries| ==> Encode(entries[i].value, hooked).Ok?
    ensures EncodeDict(entries, hooked).Err? ==>
              exists i :: 0 <= i < |entries| && Encode(entries[i].value, hooked) == Err(EncodeDict(entries, hooked).error)
    decreases |entries|
  {
    if |entries| > 0 {
      var n := |entries|;
      var front := entries[..n - 1];
      EncodeDictSucceedsIff(front, hooked);
      if EncodeDict(front, hooked).Err? {
        var i :| 0 <= i < n - 1 && Encode(front[i].value, hooked) == Err(EncodeDict(front, hooked).error);
        assert entries[i] == front[i];
      } else {
        forall i | 0 <= i < n - 1 ensures Encode(entries[i].value, hooked).Ok? {
          assert entries[i] == front[i];
        }
      }
    }
  }

  /** In an encoded dictionary each key carries the encoding of its last
      entry. */
  lemma {:induction false} EncodeDictValues(entries: seq<Entry>, hooked: bool)
    requires EncodeDict(entries, hooked).Ok?
    ensures forall i :: 0 <= i < |entries| && LastForKey(entries, i) ==>
              entries[i].key in EncodeDict(entries, hooked).value.fields
              && Encode(entries[i].value, hooked) == Ok(EncodeDict(entries, hooked).value.fields[entries[i].key])
    decreases |entries|
  {
    if |entries| > 0 {
      var n := |entries|;
      var front := entries[..n - 1];
      var r := EncodeDict(entries, hooked);
      assert EncodeDict(front, hooked).Ok?;
      EncodeDictValues(front, hooked);
      forall i | 0 <= i < n && LastForKey(entries, i)
        ensures entries[i].key in r.value.fields
        ensures Encode(entries[i].value, hooked) == Ok(r.value.fields[entries[i].key])
      {
        assert entries[i].key in EntryKeys(entries);
        if i < n - 1 {
          LastForKeySnoc(entries, i);
        }
      }
    }
  }

  lemma EntryKeysSnoc(entries: seq<Entry>)
    requires |entries| > 0
    ensures EntryKeys(entries) == EntryKeys(entries[..|entries| - 1]) + {entries[|entries| - 1].key}
  {
    var n := |entries|;
    var front := entries[..n - 1];
    forall k | k in EntryKeys(entries) ensures k in EntryKeys(front) + {entries[n - 1].key} {
      var i :| 0 <= i < n && entries[i].key == k;
      if i < n - 1 { assert front[i].key == k; }
    }
    forall k | k in EntryKeys(front) ensures k in EntryKeys(entries) {
      var i :| 0 <= i < n - 1 && front[i].key == k;
      assert entries[i].key == k;
    }
  }

  /** An entry that is last for its key before the final entry is added was
      last for its key before, and names another key than the final one. */
  lemma LastForKeySnoc(entries: seq<Entry>, i: int)
    requires 0 <= i < |entries| - 1 && LastForKey(entries, i)
    ensures entries[..|entries| - 1][i] == entries[i]
    ensures LastForKey(entries[..|entries| - 1], i)
    ensures entries[i].key != entries[|entries| - 1].key
  {
    var front := entries[..|entries| - 1];
    forall k | i < k < |front| ensures front[k].key != front[i].key {
      assert front[k] == entries[k];
    }
  }

  /** Without pages or unencodable objects inside, the hook is never
      consulted: both encoders agree. */
  predicate PlainData(o: Obj)
    decreases o
  {
    match o
    case OPage(_) => false
    case Opaque(_, _) => false
    case OList(items) => forall i :: 0 <= i < |items| ==> PlainData(items[i])
    case ODict(entries) => forall i :: 0 <= i < |entries| ==> PlainData(entries[i].value)
    case _ => true
  }

  lemma {:induction false} PlainDataEncodes(o: Obj)
    requires PlainData(o)
    ensures Encode(o, true) == Encode(o, false) && Encode(o, true).Ok?
    decreases o
  {
    match o
    case OList(items) => PlainListEncodes(items);
    case ODict(entries) => PlainDictEncodes(entries);
    case _ =>
  }

  lemma {:induction false} PlainListEncodes(items: seq<Obj>)
    requires forall i :: 0 <= i < |items| ==> PlainData(items[i])
    ensures EncodeList(items, true) == EncodeList(items, false) && EncodeList(items, true).Ok?
    decreases items
  {
    if |items| > 0 {
      PlainDataEncodes(items[0]);
      PlainListEncodes(items[1..]);
    }
  }

  lemma {:induction false} PlainDictEncodes(entries: seq<Entry>)
    requires forall i :: 0 <= i < |entries| ==> PlainData(entries[i].value)
    ensures EncodeDict(entries, true) == EncodeDict(entries, false) && EncodeDict(entries, true).Ok?
    decreases entries
  {
    if |entries| > 0 {
      var n := |entries|;
      assert entries[n - 1] in entries;
      PlainDictEncodes(entries[..n - 1]);
      PlainDataEncodes(entries[n - 1].value);
    }
  }

  /** What the encoder accepts: no unencodable object anywhere inside, and
      pages only when `_dump` is the fallback. */
  predicate Encodable(o: Obj, hooked: bool)
    decreases o
  {
    match o
    case OPage(_) => hooked
    case Opaque(_, _) => false
    case OList(items) => forall i :: 0 <= i < |items| ==> Encodable(items[i], hooked)
    case ODict(entries) => forall i :: 0 <= i < |entries| ==> Encodable(entries[i].value, hooked)
    case _ => true
  }

  /** Encoding succeeds exactly on encodable data, however deeply a page or
      an unencodable object is nested; when it fails, the message is the
      TypeError text of one object inside. */
  lemma {:induction false} EncodeSucceedsIff(o: Obj, hooked: bool)
    ensures Encode(o, hooked).Ok? <==> Encodable(o, hooked)
    ensures Encode(o, hooked).Err? ==> exists x :: Encode(o, hooked).error.message == x + " is not JSON serializable"
    decreases o
  {
    match o
    case OList(items) =>
      forall i | 0 <= i < |items|
        ensures Encode(items[i], hooked).Ok? <==> Encodable(items[i], hooked)
        ensures Encode(items[i], hooked).Err? ==>
                  exists x :: Encode(items[i], hooked).error.message == x + " is not JSON serializable"
      {
        EncodeSucceedsIff(items[i], hooked);
      }
    case ODict(entries) =>
      EncodeDictSucceedsIff(entries, hooked);
      forall i | 0 <= i < |entries|
        ensures Encode(entries[i].value, hooked).Ok? <==> Encodable(entries[i].value, hooked)
        ensures Encode(entries[i].value, hooked).Err? ==>
                  exists x :: Encode(entries[i].value, hooked).error.message == x + " is not JSON serializable"
      {
        assert entries[i] in entries;
        EncodeSucceedsIff(entries[i].value, hooked);
      }
    case _ =>
  }

  // ---------------------------------------------------------------------
  // API errors and the decorator
  // ---------------------------------------------------------------------

  /** `APIError(error, data, message)`. */
  datatype ApiError = ApiError(error: string, data: string, message: string)

  /** `APIValueError(field, message)`: an invalid input field. */
  function ValueError(field: string, message: string): ApiError
  {
    ApiError("value:invalid", field, message)
  }

  /** `APIResourceNotFoundError(field, message)`. */
  function ResourceNotFound(field: string, message: string): ApiError
  {
    ApiError("value:notfound", field, message)
  }

  /** `APIPermissionError(message)`. */
  function PermissionError(message: string): ApiError
  {
    ApiError("permission:forbidden", "permission", message)
  }

  /** What a handler did: returned a value, raised an API error, or raised
      any other exception (its class name and message). */
  datatype Outcome = Returned(value: Obj) | RaisedApi(err: ApiError) | RaisedOther(className: string, message: string)

  /** The decorated handler's answer: the content type it sets and the JSON
      it returns. */
  datatype Response = Response(contentType: string, body: Json)

  /** The error payload: `error`, `data` and `message`. */
  function ErrorPayload(error: string, data: string, message: string): Json {
    JObject(map["error" := JStr(error), "data" := JStr(data), "message" := JStr(message)])
  }

  /** `api(func)` applied to one call; `hooked` says whether encoding falls
      back to `_dump`. */
  function ApiWith(outcome: Outcome, hooked: bool): Response {
    var body :=
      match outcome
      case Returned(v) =>
        (match Encode(v, hooked)
         case Ok(j) => j
         case Err(e) => ErrorPayload("internalerror", "TypeError", e.message))
      case RaisedApi(e) => ErrorPayload(e.error, e.data, e.message)
      case RaisedOther(cls, msg) => ErrorPayload("internalerror", cls, msg);
    Response("application/json", body)
  }

  /** `api(func)` with pages encoded through `_dump`, for handlers that
      return or raise an `Exception` with text data: it answers JSON; an API
      error reaches the client as its three parts, anything else raised as an
      internal error naming its class. */
  function Api(outcome: Outcome): (r: Response)
    ensures r.contentType == "application/json"
    ensures outcome.RaisedApi? ==> r.body == ErrorPayload(outcome.err.error, outcome.err.data, outcome.err.message)
    ensures outcome.RaisedOther? ==> r.body == ErrorPayload("internalerror", outcome.className, outcome.message)
    ensures outcome.Returned? && outcome.value.OPage? ==> r.body == DumpPage(outcome.value.page)
    ensures outcome.Returned? && PlainData(outcome.value) ==> Encode(outcome.value, false) == Ok(r.body)
    ensures outcome.Returned? && Encodable(outcome.value, true) ==> Encode(outcome.value, true) == Ok(r.body)
    ensures outcome.Returned? && !Encodable(outcome.value, true) ==>
              exists x :: r.body == ErrorPayload("internalerror", "TypeError", x + " is not JSON serializable")
  {
    assert outcome.Returned? ==>
             (Encode(outcome.value, true).Ok? <==> Encodable(outcome.value, true))
             && (Encode(outcome.value, true).Err? ==>
                   exists x :: Encode(outcome.value, true).error.message == x + " is not JSON serializable") by {
      if outcome.Returned? { EncodeSucceedsIff(outcome.value, true); }
    }
    assert outcome.Returned? && PlainData(outcome.value) ==>
             Encode(outcome.value, true) == Encode(outcome.value, false) && Encode(outcome.value, true).Ok? by {
      if outcome.Returned? && PlainData(outcome.value) { PlainDataEncodes(outcome.value); }
    }
    ApiWith(outcome, true)
  }

  /** `api(func)` as written: `dumps` never passes `_dump` to the encoder. */
  function ApiAsWritten(outcome: Outcome): Response {
    ApiWith(outcome, false)
  }

  /** Reading an error payload back. */
  function DecodeError(body: Json): Option<ApiError> {
    if body.JObject? && "error" in body.fields && "data" in body.fields && "message" in body.fields
       && body.fields["error"].JStr? && body.fields["data"].JStr? && body.fields["message"].JStr?
    then Some(ApiError(body.fields["error"].s, body.fields["data"].s, body.fields["message"].s))
    else None
  }

  /** A raised API error reaches the client intact: its payload decodes to
      the same error. */
  lemma ApiErrorRoundTrip(e: ApiError)
    ensures DecodeError(Api(RaisedApi(e)).body) == Some(e)
  {
  }

  /** What a client reads for each kind of failure: an invalid field and a
      missing resource name the field under their own codes, a refused
      permission names `permission`, and any other exception is an internal
      error naming its class. */
  lemma ErrorCodesReachClient(field: string, message: string, className: string)
    ensures DecodeError(Api(RaisedApi(ValueError(field, message))).body)
            == Some(ApiError("value:invalid", field, message))
    ensures DecodeError(Api(RaisedApi(ResourceNotFound(field, message))).body)
            == Some(ApiError("value:notfound", field, message))
    ensures DecodeError(Api(RaisedApi(PermissionError(message))).body)
            == Some(ApiError("permission:forbidden", "permission", message))
    ensures DecodeError(Api(RaisedOther(className, message)).body)
            == Some(ApiError("internalerror", className, message))
  {
  }

  /** The discrepancy on one input: a handler returning a page. As written
      the client gets an internal TypeError; as intended, the page's dump. */
  lemma PageDumpCounterexample(p: Page)
    ensures ApiAsWritten(Returned(OPage(p))).body
            == ErrorPayload("internalerror", "TypeError", PageText(p) + " is not JSON serializable")
    ensures Api(Returned(OPage(p))).body == DumpPage(p)
  {
  }
}
