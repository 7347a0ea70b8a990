/**
 * What one external lookup logs when it completes (app.js:89-97, 125-151):
 * the response list is searched for the first record with the product's id,
 * its price and stock are passed on with every falsy value replaced by null,
 * and the callback logs success only when both values are non-null.
 */
module Lookup {
  import opened Text
  import opened ActivityLog
  import opened Messages

  /** `v || null` (app.js:139-140). */
  function OrNull(v: JsValue): (r: JsValue)
    ensures r != Null <==> Truthy(v)
    ensures r != Null ==> r == v
    ensures r != Undefined
  {
    if Truthy(v) then v else Null
  }

  /** One element of the JSON array the external API answers with. */
  datatype Record = Record(id: Id, price: JsValue, stock: JsValue)

  /**
   * How a request ended: a non-2xx status (app.js:127-131), any other rejection
   * with its error message (network failure, a body that is not JSON or not an
   * array, a `null` element that `p.id` throws on before the match), or the
   * decoded array of records.
   */
  datatype Response = HttpError(status: nat) | Rejected(message: string) | Received(records: seq<Record>)

  /** The arguments the callback receives. */
  datatype Reply = Reply(price: JsValue, stock: JsValue)

  /** The index of the first record with `id`, as `data.find` searches (app.js:137). */
  function FindIndex(records: seq<Record>, id: Id): (r: Option<nat>)
    ensures r.Some? ==> r.value < |records| && records[r.value].id == id
    ensures r.Some? ==> forall j :: 0 <= j < r.value ==> records[j].id != id
    ensures r.None? <==> forall j :: 0 <= j < |records| ==> records[j].id != id
  {
    if |records| == 0 then None
    else if records[0].id == id then Some(0)
    else
      match FindIndex(records[1..], id)
      case None => None
      case Some(k) => Some(k + 1)
  }

  /** The message of the error thrown for a non-2xx status (app.js:130). */
  function StatusMessage(status: nat): string
  {
    "Error en la respuesta de la API externa: " + NatToString(status)
  }

  /**
   * The `.then(data => …)` step (app.js:134-146): the lines it logs itself and
   * the arguments it passes to the callback.
   */
  function Match(records: seq<Record>, id: Id): (seq<Message>, Reply)
  {
    match FindIndex(records, id)
    case Some(k) => ([], Reply(OrNull(records[k].price), OrNull(records[k].stock)))
    case None => ([NotFound(id)], Reply(Null, Null))
  }

  /** The lines the callback logs for its arguments (app.js:89-97). */
  function CallbackLines(id: Id, reply: Reply): seq<Message>
  {
    if reply.price != Null && reply.stock != Null then [ExternalData(id, reply.price, reply.stock)]
    else [ExternalFailure(id)]
  }

  /**
   * Everything the lookup for `id` logs once it has completed with `response`;
   * a rejection is caught, logged and answered with `(null, null)` (app.js:147-151).
   */
  function Completion(id: Id, response: Response): seq<Message>
  {
    match response
    case HttpError(status) => [RequestError(id, StatusMessage(status))] + CallbackLines(id, Reply(Null, Null))
    case Rejected(message) => [RequestError(id, message)] + CallbackLines(id, Reply(Null, Null))
    case Received(records) =>
      var (lines, reply) := Match(records, id);
      lines + CallbackLines(id, reply)
  }

  /** No record with the id: one "not found" line, then the callback sees (null, null) and fails. */
  lemma Unmatched(records: seq<Record>, id: Id)
    requires forall j :: 0 <= j < |records| ==> records[j].id != id
    ensures Match(records, id) == ([NotFound(id)], Reply(Null, Null))
    ensures Completion(id, Received(records)) == [NotFound(id), ExternalFailure(id)]
  {
  }

  /** A matching record passes on its own price and stock, with falsy ones turned into null. */
  lemma FoundReply(records: seq<Record>, id: Id, k: nat)
    requires k < |records| && records[k].id == id
    requires forall j :: 0 <= j < k ==> records[j].id != id
    ensures Match(records, id).0 == []
    ensures Match(records, id).1.price == (if Truthy(records[k].price) then records[k].price else Null)
    ensures Match(records, id).1.stock == (if Truthy(records[k].stock) then records[k].stock else Null)
  {
  }

  /**
   * With a matching record the callback's line is the only one logged: success
   * with the record's own values when both are truthy, otherwise failure.
   */
  lemma FoundOutcome(records: seq<Record>, id: Id, k: nat)
    requires k < |records| && records[k].id == id
    requires forall j :: 0 <= j < k ==> records[j].id != id
    ensures Completion(id, Received(records)) ==
      if Truthy(records[k].price) && Truthy(records[k].stock)
      then [ExternalData(id, records[k].price, records[k].stock)]
      else [ExternalFailure(id)]
  {
    FoundReply(records, id, k);
  }

  /** The last line of `lines` is a success line. */
  predicate EndsInSuccess(lines: seq<Message>)
  {
    |lines| > 0 && KindOf(lines[|lines| - 1]) == Success
  }

  /** An array response ends in success exactly when its first match has a truthy price and stock. */
  lemma ReceivedSuccess(id: Id, records: seq<Record>)
    ensures EndsInSuccess(Completion(id, Received(records))) <==>
      (FindIndex(records, id).Some? &&
       Truthy(records[FindIndex(records, id).value].price) &&
       Truthy(records[FindIndex(records, id).value].stock))
  {
    var (lines, reply) := Match(records, id);
    var last := CallbackLines(id, reply);
    assert Completion(id, Received(records)) == lines + last;
    assert EndsInSuccess(lines + last) <==> reply.price != Null && reply.stock != Null;
    var r := FindIndex(records, id);
    if r.Some? {
      assert reply == Reply(OrNull(records[r.value].price), OrNull(records[r.value].stock));
    } else {
      assert reply == Reply(Null, Null);
    }
  }

  /** A lookup ends in success exactly when a record matches and both its price and stock are truthy. */
  lemma SuccessExactlyWhenBothTruthy(id: Id, response: Response)
    ensures EndsInSuccess(Completion(id, response)) <==>
      (response.Received? && FindIndex(response.records, id).Some? &&
       Truthy(response.records[FindIndex(response.records, id).value].price) &&
       Truthy(response.records[FindIndex(response.records, id).value].stock))
  {
    match response
    case HttpError(_) => RequestFailure(id, response);
    case Rejected(_) => RequestFailure(id, response);
    case Received(records) => ReceivedSuccess(id, records);
  }

  /** The callback's outcome line: a success or the failure line for `id`. */
  predicate IsOutcome(id: Id, m: Message)
  {
    m == ExternalFailure(id) || (m.ExternalData? && m.id == id)
  }

  /**
   * Every lookup has exactly one terminal outcome: the callback runs once, and
   * its line is the last one logged; at most one error line comes before it.
   */
  lemma OneOutcome(id: Id, response: Response)
    ensures 1 <= |Completion(id, response)| <= 2
    ensures IsOutcome(id, Completion(id, response)[|Completion(id, response)| - 1])
    ensures forall k :: 0 <= k < |Completion(id, response)| - 1 ==> KindOf(Completion(id, response)[k]) == Error
    ensures forall k :: 0 <= k < |Completion(id, response)| - 1 ==> !IsOutcome(id, Completion(id, response)[k])
  {
  }

  /** A failed request logs the caught error and then the callback's failure line. */
  lemma RequestFailure(id: Id, response: Response)
    requires !response.Received?
    ensures |Completion(id, response)| == 2
    ensures Completion(id, response)[0] ==
      RequestError(id, if response.HttpError? then StatusMessage(response.status) else response.message)
    ensures Completion(id, response)[1] == ExternalFailure(id)
  {
  }

  /**
   * Lookups complete in an order the code does not fix; the log receives each
   * completion's lines as one block when its callback runs.
   */
  function Completions(done: seq<(Id, Response)>): seq<Message>
  {
    Concat(Blocks(done))
  }

  function Blocks(done: seq<(Id, Response)>): (r: seq<seq<Message>>)
    ensures |r| == |done|
    ensures forall k :: 0 <= k < |done| ==> r[k] == Completion(done[k].0, done[k].1)
  {
    seq(|done|, k requires 0 <= k < |done| => Completion(done[k].0, done[k].1))
  }

  /**
   * Failures are isolated: whatever the other lookups did and in whichever
   * order they finished, each completion's lines appear intact, in place.
   */
  lemma CompletionsIsolated(done: seq<(Id, Response)>, k: nat)
    requires k < |done|
    ensures Completions(done) == Completions(done[..k]) + Completion(done[k].0, done[k].1) + Completions(done[k + 1..])
  {
    var blocks := Blocks(done);
    ConcatAround(blocks, k);
    assert blocks[..k] == Blocks(done[..k]);
    assert blocks[k + 1..] == Blocks(done[k + 1..]);
  }


  /** The callback of app.js:89-97 called with `reply`, its one line logged at `clock(at)`. */
  method Callback(tab: Tab, id: Id, reply: Reply, clock: nat -> string, at: nat)
    requires tab.Valid()
    modifies tab, tab.log
    ensures tab.Valid()
    ensures tab.said == old(tab.said) + Timed(CallbackLines(id, reply), clock, at)
  {
    if reply.price != Null && reply.stock != Null {
      tab.LogMessage(ExternalData(id, reply.price, reply.stock), clock, at);
    } else {
      tab.LogMessage(ExternalFailure(id), clock, at);
    }
  }

  /** The `.catch` handler (app.js:147-151): log the error, then call back with (null, null). */
  method CatchError(tab: Tab, id: Id, error: string, clock: nat -> string)
    requires tab.Valid()
    modifies tab, tab.log
    ensures tab.Valid()
    ensures tab.said == old(tab.said) + Timed([RequestError(id, error)] + CallbackLines(id, Reply(Null, Null)), clock, 0)
  {
    tab.LogMessage(RequestError(id, error), clock, 0);
    Callback(tab, id, Reply(Null, Null), clock, 1);
    TimedThen(old(tab.said), [RequestError(id, error)], CallbackLines(id, Reply(Null, Null)), clock, 0);
  }

  /** The `.then(data => …)` handler (app.js:134-146) for the decoded array `records`. */
  method HandleData(tab: Tab, id: Id, records: seq<Record>, clock: nat -> string)
    requires tab.Valid()
    modifies tab, tab.log
    ensures tab.Valid()
    ensures tab.said == old(tab.said) + Timed(Match(records, id).0 + CallbackLines(id, Match(records, id).1), clock, 0)
  {
    var found := FindIndex(records, id);
    if found.Some? {
      var data := records[found.value];
      Callback(tab, id, Reply(OrNull(data.price), OrNull(data.stock)), clock, 0);
      assert Match(records, id).0 == [];
    } else {
      tab.LogMessage(NotFound(id), clock, 0);
      Callback(tab, id, Reply(Null, Null), clock, 1);
      TimedThen(old(tab.said), [NotFound(id)], CallbackLines(id, Reply(Null, Null)), clock, 0);
    }
  }

  /**
   * The part of `callExternalAPIForProductInfo(id, callback)` that runs once
   * the request has ended with `response` (app.js:125-151); the k-th line it
   * logs is logged at `clock(k)`.
   */
  method CompleteLookup(tab: Tab, id: Id, response: Response, clock: nat -> string)
    requires tab.Valid()
    modifies tab, tab.log
    ensures tab.Valid()
    ensures tab.said == old(tab.said) + Timed(Completion(id, response), clock, 0)
  {
    match response {
      case HttpError(status) => CatchError(tab, id, StatusMessage(status), clock);
      case Rejected(message) => CatchError(tab, id, message, clock);
      case Received(records) => HandleData(tab, id, records, clock);
    }
  }
}
