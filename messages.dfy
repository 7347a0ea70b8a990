/**
 * The messages the deal tab writes to its activity log while it handles a
 * product-row change and the external lookups that change starts, with the
 * exact text and CSS class of each (app.js:66-101, 143, 149).
 */
module Messages {
  import opened Text
  import opened ActivityLog

  /** Product identifiers; the CRM row and the external record use the same type. */
  type Id = string

  /** The JSON-decoded values a record field can hold, plus `undefined` for a missing field. */
  datatype JsValue =
    | Undefined
    | Null
    | Bool(b: bool)
    | Number(value: real, text: string)   // `text` is the number's JavaScript string form
    | Str(s: string)
    | Composite(text: string)             // an array or an object; `text` is its string form

  /** JavaScript truthiness: false, 0, "", null and undefined are falsy. */
  predicate Truthy(v: JsValue)
  {
    match v
    case Undefined => false
    case Null => false
    case Bool(b) => b
    case Number(x, _) => x != 0.0
    case Str(s) => s != ""
    case Composite(_) => true
  }

  /** How a template literal shows a value. */
  function Show(v: JsValue): string
  {
    match v
    case Undefined => "undefined"
    case Null => "null"
    case Bool(b) => if b then "true" else "false"
    case Number(_, text) => text
    case Str(s) => s
    case Composite(text) => text
  }

  /**
   * One product row as the CRM sends it (app.js:74-78). The fields hold the
   * text the log line shows; `price` is already the display form of
   * `parseFloat(product.PRICE)`.
   */
  datatype Product = Product(id: Id, name: string, quantity: string, price: string, currency: string)

  /** The CSS classes the app gives its log entries. */
  datatype Kind = Info | Success | Error

  function ClassName(k: Kind): string
  {
    match k
    case Info => "info"
    case Success => "success"
    case Error => "error"
  }

  /** Every message the handler and the lookups log. */
  datatype Message =
    | Command(command: string)                              // app.js:66
    | ProductCount(count: nat)                              // app.js:70
    | ProductRow(product: Product)                          // app.js:82
    | MissingProducts                                       // app.js:101
    | ExternalData(id: Id, price: JsValue, stock: JsValue)  // app.js:91
    | ExternalFailure(id: Id)                               // app.js:95
    | NotFound(id: Id)                                      // app.js:143
    | RequestError(id: Id, error: string)                   // app.js:149

  function KindOf(m: Message): Kind
  {
    match m
    case Command(_) => Info
    case ProductCount(_) => Success
    case ProductRow(_) => Info
    case MissingProducts => Error
    case ExternalData(_, _, _) => Success
    case ExternalFailure(_) => Error
    case NotFound(_) => Error
    case RequestError(_, _) => Error
  }

  // The fixed pieces of the message texts, in the order they occur.
  const CommandText: string := "Evento 'onProductRowChange' detectado! Comando: <span class=\"info\">"
  const CountText: string := "Productos actuales en la Negociación (<span class=\"info\">"
  const CountClose: string := "</span>):"
  const RowText: string := "- <span class=\"product-info\">ID: "
  const NameLabel: string := ", Nombre: "
  const QuantityLabel: string := ", Cant: "
  const PriceLabel: string := ", Precio: "
  const MissingText: string := "No se encontraron datos de productos válidos en el evento. Formato inesperado."
  const DataText: string := "   -> API Externa para ID <span class=\"info\">"
  const PriceText: string := "</span>: Precio: <span class=\"success\">"
  const StockText: string := "</span>, Stock: <span class=\"success\">"
  const FailureText: string := "   -> API Externa: Falló la obtención de info para ID <span class=\"info\">"
  const FailureClose: string := "</span>."
  const NotFoundText: string := "Producto ID "
  const NotFoundClose: string := " no encontrado en la API externa (mock)."
  const RequestErrorText: string := "Error en API Externa para ID <span class=\"info\">"
  const RequestErrorDetail: string := "</span>: <span class=\"error\">"
  const SpanEnd: string := "</span>"

  /** The message text, the first argument of `addLogMessage`. */
  function Body(m: Message): string
  {
    match m
    case Command(command) => CommandText + command + SpanEnd
    case ProductCount(count) => CountText + NatToString(count) + CountClose
    case ProductRow(p) =>
      RowText + p.id + NameLabel + p.name + QuantityLabel + p.quantity + PriceLabel + p.price + " " + p.currency + SpanEnd
    case MissingProducts => MissingText
    case ExternalData(id, price, stock) => DataText + id + PriceText + Show(price) + StockText + Show(stock) + SpanEnd
    case ExternalFailure(id) => FailureText + id + FailureClose
    case NotFound(id) => NotFoundText + id + NotFoundClose
    case RequestError(id, error) => RequestErrorText + id + RequestErrorDetail + error + SpanEnd
  }

  /** The `addLogMessage` call that logs `m` at `timestamp`. */
  function Call(m: Message, timestamp: string): Fields
  {
    Fields(timestamp, Body(m), ClassName(KindOf(m)))
  }

  /** The entry of every message reads back to the time it was logged, its text and its class. */
  lemma EntryReadsBack(m: Message, timestamp: string)
    requires ']' !in timestamp
    ensures Parse(Format(timestamp, Body(m), ClassName(KindOf(m)))) == Some(Call(m, timestamp))
  {
    ParseFormat(Call(m, timestamp));
  }

  /** One logged message with the time it was logged at. */
  datatype Said = Said(message: Message, timestamp: string)

  /** The `addLogMessage` calls that log each of `said`, in order. */
  function Calls(said: seq<Said>): (r: seq<Fields>)
    ensures |r| == |said|
    ensures forall k :: 0 <= k < |said| ==> r[k] == Call(said[k].message, said[k].timestamp)
  {
    seq(|said|, k requires 0 <= k < |said| => Call(said[k].message, said[k].timestamp))
  }

  /**
   * `msgs` logged one after another, the k-th at time `clock(from + k)`: the
   * time of each `addLogMessage` call is an input.
   */
  function Timed(msgs: seq<Message>, clock: nat -> string, from: nat): (r: seq<Said>)
    ensures |r| == |msgs|
  {
    if |msgs| == 0 then []
    else Timed(msgs[..|msgs| - 1], clock, from) + [Said(msgs[|msgs| - 1], clock(from + |msgs| - 1))]
  }

  /** Each message is logged at its own time. */
  lemma {:induction false} TimedAt(msgs: seq<Message>, clock: nat -> string, from: nat, k: nat)
    requires k < |msgs|
    ensures Timed(msgs, clock, from)[k] == Said(msgs[k], clock(from + k))
  {
    if k < |msgs| - 1 {
      assert msgs[..|msgs| - 1][k] == msgs[k];
      TimedAt(msgs[..|msgs| - 1], clock, from, k);
    }
  }

  /** Logging two consecutive runs of messages is logging them together. */
  lemma {:induction false} TimedAppend(a: seq<Message>, b: seq<Message>, clock: nat -> string, from: nat)
    ensures Timed(a + b, clock, from) == Timed(a, clock, from) + Timed(b, clock, from + |a|)
  {
    if |b| == 0 {
      assert a + b == a;
    } else {
      var init, last := b[..|b| - 1], b[|b| - 1];
      assert (a + b)[..|a + b| - 1] == a + init;
      assert (a + b)[|a + b| - 1] == last;
      TimedAppend(a, init, clock, from);
    }
  }

  /** A trace that received `a` and then `b`, logged from `from` on, received `a + b`. */
  lemma TimedThen(said: seq<Said>, a: seq<Message>, b: seq<Message>, clock: nat -> string, from: nat)
    ensures said + Timed(a, clock, from) + Timed(b, clock, from + |a|) == said + Timed(a + b, clock, from)
  {
    TimedAppend(a, b, clock, from);
  }

  lemma TimedOne(m: Message, clock: nat -> string, at: nat)
    ensures Timed([m], clock, at) == [Said(m, clock(at))]
  {
    assert [m][..0] == [];
  }

  /**
   * The state of the deal tab's script: its activity log, and a record of
   * every message it has logged there with the time of the call.
   */
  class Tab {
    const log: Log
    ghost var said: seq<Said>

    /** The log has received exactly the calls for `said`, in order. */
    ghost predicate Valid()
      reads this, log
    {
      && log.Valid()
      && |log.calls| == |said|
      && forall k :: 0 <= k < |said| ==> log.calls[k] == Call(said[k].message, said[k].timestamp)
    }

    /** The calls the log received are those of the messages the tab logged. */
    lemma Logged()
      requires Valid()
      ensures log.calls == Calls(said)
    {
    }

    /** The panel shows the entries of the last min(n, Capacity) messages logged. */
    lemma Shown()
      requires Valid()
      ensures log.entries == Retained(Entries(Calls(said)))
    {
      Logged();
      log.Window();
    }

    constructor ()
      ensures Valid() && said == [] && fresh(log) && log.entries == []
    {
      log := new Log();
      said := [];
    }

    /** `addLogMessage(Body(m), ClassName(KindOf(m)))` called at time `clock(at)`. */
    method LogMessage(m: Message, clock: nat -> string, at: nat)
      requires Valid()
      modifies this, log
      ensures Valid()
      ensures said == old(said) + Timed([m], clock, at)
    {
      log.Append(clock(at), Body(m), ClassName(KindOf(m)));
      said := said + [Said(m, clock(at))];
      TimedOne(m, clock, at);
    }
  }

  /** How many of `msgs` are error messages. */
  function ErrorCount(msgs: seq<Message>): nat
  {
    if |msgs| == 0 then 0
    else ErrorCount(msgs[..|msgs| - 1]) + (if KindOf(msgs[|msgs| - 1]) == Error then 1 else 0)
  }

  lemma {:induction false} ErrorCountAppend(a: seq<Message>, b: seq<Message>)
    ensures ErrorCount(a + b) == ErrorCount(a) + ErrorCount(b)
  {
    if |b| > 0 {
      assert (a + b)[..|a + b| - 1] == a + b[..|b| - 1];
      ErrorCountAppend(a, b[..|b| - 1]);
    } else {
      assert a + b == a;
    }
  }

  lemma OneMessageErrors(m: Message)
    ensures ErrorCount([m]) == if KindOf(m) == Error then 1 else 0
  {
    assert [m][..0] == [];
  }
}
