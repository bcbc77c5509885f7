/** The Airtable HTTP client (src/modules/http/airtable/client.ts): the
    request each operation sends, and which response statuses it accepts.

    The HTTP exchange itself is a parameter `send`: given the request, the
    response (status and parsed body) or a transport error. The underlying
    request helper accepts every status and rethrows transport errors, so a
    transport error propagates to the caller while a response with an
    unaccepted status becomes null. */
module Airtable {
  import opened Wrappers
  import opened Text

  /** A stored row: its id, creation time and typed fields */
  datatype AirtableRecord<F> = AirtableRecord(id: string, createdTime: string, fields: F)

  /** One page of a listing */
  datatype ListResponse<F> = ListResponse(records: seq<AirtableRecord<F>>, offset: Option<string>)

  datatype SortField = SortField(field: string, direction: string)

  /** The listing options the callers set */
  datatype ListOptions = ListOptions(
    filterByFormula: Option<string>,
    maxRecords: Option<int>,
    sort: Option<seq<SortField>>,
    offset: Option<string>)

  datatype HttpMethod = Get | Post | Patch

  /** An outgoing request: method, path, JSON body and query parameters */
  datatype Request<B> = Request(verb: HttpMethod, url: string, data: Option<B>, params: Option<ListOptions>)

  /** What came back: a response with any status, or a transport failure */
  datatype Exchange<T> = Response(status: int, data: T) | TransportError(reason: string)

  /** The four client operations, which differ in the statuses they accept */
  datatype Operation = CreateOp | GetOp | UpdateOp | ListOp

  /** "/" ++ baseId ++ "/" ++ table, followed by "/" ++ recordId when a
      non-empty record id is given */
  function GetPath(baseId: string, table: string, recordId: Option<string>): (path: string)
    ensures |path| > 0 && path[0] == '/'
    ensures recordId.Some? && recordId.value != "" ==>
      |path| > |recordId.value| && path[|path| - |recordId.value| - 1..] == "/" + recordId.value
  {
    var path := "/" + baseId + "/" + table;
    if recordId.Some? && recordId.value != "" then path + "/" + recordId.value else path
  }

  /** createRecord accepts 200 and 201; the other operations accept only 200 */
  predicate Accepts(op: Operation, status: int) {
    match op
    case CreateOp => status == 200 || status == 201
    case _ => status == 200
  }

  /** How an operation turns the exchange into its result: a transport error
      is rethrown (Failure), an accepted status yields the body, and any other
      status yields null (None). */
  function Receive<T>(op: Operation, ex: Exchange<T>): (r: Result<Option<T>, string>)
    ensures r.Failure? <==> ex.TransportError?
    ensures r.Failure? ==> r.error == ex.reason
    ensures r.Success? ==> (r.value.Some? <==> Accepts(op, ex.status))
    ensures r.Success? && r.value.Some? ==> r.value.value == ex.data
  {
    match ex
    case TransportError(reason) => Failure(reason)
    case Response(status, data) => if Accepts(op, status) then Success(Some(data)) else Success(None)
  }

  function CreateRequest<F>(baseId: string, table: string, fields: F): (q: Request<F>)
    ensures q.verb == Post && q.url == GetPath(baseId, table, None)
    ensures q.data == Some(fields) && q.params.None?
  {
    Request(Post, GetPath(baseId, table, None), Some(fields), None)
  }

  function GetRequest(baseId: string, table: string, recordId: string): (q: Request<()>)
    ensures q.verb == Get && q.url == GetPath(baseId, table, Some(recordId))
    ensures q.data.None? && q.params.None?
  {
    Request(Get, GetPath(baseId, table, Some(recordId)), None, None)
  }

  function UpdateRequest<P>(baseId: string, table: string, recordId: string, patch: P): (q: Request<P>)
    ensures q.verb == Patch && q.url == GetPath(baseId, table, Some(recordId))
    ensures q.data == Some(patch) && q.params.None?
  {
    Request(Patch, GetPath(baseId, table, Some(recordId)), Some(patch), None)
  }

  function ListRequest(baseId: string, table: string, options: ListOptions): (q: Request<()>)
    ensures q.verb == Get && q.url == GetPath(baseId, table, None)
    ensures q.data.None? && q.params == Some(options)
  {
    Request(Get, GetPath(baseId, table, None), None, Some(options))
  }

  /** createRecord: POST the fields to the table path */
  function CreateRecord<F>(baseId: string, table: string, fields: F,
                           send: Request<F> -> Exchange<AirtableRecord<F>>): (r: Result<Option<AirtableRecord<F>>, string>)
    ensures var ex := send(CreateRequest(baseId, table, fields));
      && (r.Failure? <==> ex.TransportError?)
      && (r.Success? && r.value.Some? <==> ex.Response? && (ex.status == 200 || ex.status == 201))
      && (r.Success? && r.value.Some? ==> r.value.value == ex.data)
  {
    Receive(CreateOp, send(CreateRequest(baseId, table, fields)))
  }

  /** getRecord: GET the record path */
  function GetRecord<F>(baseId: string, table: string, recordId: string,
                        send: Request<()> -> Exchange<AirtableRecord<F>>): (r: Result<Option<AirtableRecord<F>>, string>)
    ensures var ex := send(GetRequest(baseId, table, recordId));
      && (r.Failure? <==> ex.TransportError?)
      && (r.Success? && r.value.Some? <==> ex.Response? && ex.status == 200)
      && (r.Success? && r.value.Some? ==> r.value.value == ex.data)
  {
    Receive(GetOp, send(GetRequest(baseId, table, recordId)))
  }

  /** updateRecord: PATCH the partial fields to the record path */
  function UpdateRecord<F, P>(baseId: string, table: string, recordId: string, patch: P,
                              send: Request<P> -> Exchange<AirtableRecord<F>>): (r: Result<Option<AirtableRecord<F>>, string>)
    ensures var ex := send(UpdateRequest(baseId, table, recordId, patch));
      && (r.Failure? <==> ex.TransportError?)
      && (r.Success? && r.value.Some? <==> ex.Response? && ex.status == 200)
      && (r.Success? && r.value.Some? ==> r.value.value == ex.data)
  {
    Receive(UpdateOp, send(UpdateRequest(baseId, table, recordId, patch)))
  }

  /** listRecords: GET the table path with the options as query parameters */
  function ListRecords<F>(baseId: string, table: string, options: ListOptions,
                          send: Request<()> -> Exchange<ListResponse<F>>): (r: Result<Option<ListResponse<F>>, string>)
    ensures var ex := send(ListRequest(baseId, table, options));
      && (r.Failure? <==> ex.TransportError?)
      && (r.Success? && r.value.Some? <==> ex.Response? && ex.status == 200)
      && (r.Success? && r.value.Some? ==> r.value.value == ex.data)
  {
    Receive(ListOp, send(ListRequest(baseId, table, options)))
  }

  // ---------------------------------------------------------------------
  // Lemmas

  /** When no component contains '/', splitting the path on '/' gives back
      the components: an empty first piece, the base, the table and the
      record id when one was given */
  lemma GetPathSplits(baseId: string, table: string, recordId: Option<string>)
    requires '/' !in baseId && '/' !in table
    requires recordId.Some? ==> '/' !in recordId.value
    ensures Split(GetPath(baseId, table, recordId), '/') ==
      ["", baseId, table] + (if recordId.Some? && recordId.value != "" then [recordId.value] else [])
  {
    var rest := table + (if recordId.Some? && recordId.value != "" then "/" + recordId.value else "");
    PathShape(baseId, table, recordId);
    SplitAfterBase(baseId, rest);
    TableAndRecordSplit(table, recordId);
  }

  lemma PathShape(baseId: string, table: string, recordId: Option<string>)
    ensures GetPath(baseId, table, recordId) ==
      [] + ['/'] + (baseId + ['/'] + (table + (if recordId.Some? && recordId.value != "" then "/" + recordId.value else "")))
  {
  }

  lemma SplitAfterBase(baseId: string, rest: string)
    requires '/' !in baseId
    ensures Split([] + ['/'] + (baseId + ['/'] + rest), '/') == ["", baseId] + Split(rest, '/')
  {
    var inner := baseId + ['/'] + rest;
    SplitAtSeparator(baseId, rest, '/');
    SplitAtSeparator([], inner, '/');
    assert [""] + ([baseId] + Split(rest, '/')) == ["", baseId] + Split(rest, '/');
  }

  /** The part of the path after the base */
  lemma TableAndRecordSplit(table: string, recordId: Option<string>)
    requires '/' !in table
    requires recordId.Some? ==> '/' !in recordId.value
    ensures var rest := table + (if recordId.Some? && recordId.value != "" then "/" + recordId.value else "");
      Split(rest, '/') == [table] + (if recordId.Some? && recordId.value != "" then [recordId.value] else [])
  {
    if recordId.Some? && recordId.value != "" {
      var r := recordId.value;
      assert table + ("/" + r) == table + ['/'] + r;
      SplitAtSeparator(table, r, '/');
      SplitNoSeparator(r, '/');
    } else {
      assert table + "" == table;
      SplitNoSeparator(table, '/');
    }
  }

  /** An empty record id is treated like no record id */
  lemma EmptyRecordIdIgnored(baseId: string, table: string)
    ensures GetPath(baseId, table, Some("")) == GetPath(baseId, table, None)
  {
  }

  /** A 201 is a success for createRecord and a null for the other operations */
  lemma CreatedOnlyAcceptedByCreate<T>(op: Operation, data: T)
    ensures Receive(op, Response(201, data)).Success?
    ensures Receive(op, Response(201, data)).value.Some? <==> op == CreateOp
  {
  }

  /** A transport error is never turned into a null result, whatever the
      operation */
  lemma TransportErrorsPropagate<T>(op: Operation, reason: string)
    ensures Receive<T>(op, TransportError(reason)) == Failure(reason)
  {
  }
}
