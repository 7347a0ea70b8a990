/**
 * The handler the CRM calls when the product rows of a deal change
 * (`window.productRowChangeHandler`, app.js:61-104): it logs the command,
 * checks that the payload carries an array of products, and for each product
 * in order logs one line and starts one external lookup.
 */
module RowChange {
  import opened Text
  import opened ActivityLog
  import opened Messages
  import opened Lookup

  /** What `params.products` holds: nothing (or a falsy value), something else, or an array. */
  datatype ProductsField = Absent | NotArray | Products(items: seq<Product>)

  /** The `params` argument: missing (or falsy), or an object with a `products` field. */
  datatype Params = NoParams | Params(products: ProductsField)

  /** The check of app.js:69; an empty array passes it. */
  predicate HasProducts(params: Params)
  {
    params.Params? && params.products.Products?
  }

  /** One line per product, in array order. */
  function ProductLines(items: seq<Product>): (r: seq<Message>)
    ensures |r| == |items|
  {
    seq(|items|, k requires 0 <= k < |items| => ProductRow(items[k]))
  }

  /** The ids of the products, in array order. */
  function Ids(items: seq<Product>): (r: seq<Id>)
    ensures |r| == |items|
  {
    seq(|items|, k requires 0 <= k < |items| => items[k].id)
  }

  /** One more product adds its line after the others. */
  lemma ProductLinesSnoc(items: seq<Product>, i: nat)
    requires i < |items|
    ensures ProductLines(items[..i + 1]) == ProductLines(items[..i]) + [ProductRow(items[i])]
  {
    var longer, shorter := ProductLines(items[..i + 1]), ProductLines(items[..i]) + [ProductRow(items[i])];
    forall k | 0 <= k < i + 1
      ensures longer[k] == shorter[k]
    {
      if k < i {
        assert longer[k] == ProductRow(items[k]);
      }
    }
  }

  /** One more product adds its id after the others. */
  lemma IdsSnoc(items: seq<Product>, i: nat)
    requires i < |items|
    ensures Ids(items[..i + 1]) == Ids(items[..i]) + [items[i].id]
  {
    var longer, shorter := Ids(items[..i + 1]), Ids(items[..i]) + [items[i].id];
    forall k | 0 <= k < i + 1
      ensures longer[k] == shorter[k]
    {
      if k < i {
        assert longer[k] == items[k].id;
      }
    }
  }

  /**
   * One more product: its line is logged after the others, at the next time,
   * and its id joins the issued lookups.
   */
  lemma ProductStep(said: seq<Said>, items: seq<Product>, i: nat, clock: nat -> string, from: nat)
    requires i < |items|
    ensures said + Timed(ProductLines(items[..i]), clock, from) + Timed([ProductRow(items[i])], clock, from + i)
         == said + Timed(ProductLines(items[..i + 1]), clock, from)
    ensures Ids(items[..i + 1]) == Ids(items[..i]) + [items[i].id]
  {
    ProductLinesSnoc(items, i);
    IdsSnoc(items, i);
    TimedThen(said, ProductLines(items[..i]), [ProductRow(items[i])], clock, from);
  }

  /** The lines logged for an array of products: the count, then one per product. */
  function BatchLines(items: seq<Product>): seq<Message>
  {
    [ProductCount(|items|)] + ProductLines(items)
  }

  /** The lines one call of the handler logs before any lookup completes. */
  function HandlerLines(command: string, params: Params): seq<Message>
  {
    [Command(command)] + if HasProducts(params) then BatchLines(params.products.items) else [MissingProducts]
  }

  /** The lookups one call of the handler starts, in the order it starts them. */
  function Lookups(params: Params): seq<Id>
  {
    if HasProducts(params) then Ids(params.products.items) else []
  }

  lemma {:induction false} NoProductErrors(items: seq<Product>)
    ensures ErrorCount(ProductLines(items)) == 0
  {
    if |items| > 0 {
      assert ProductLines(items)[..|items| - 1] == ProductLines(items[..|items| - 1]);
      NoProductErrors(items[..|items| - 1]);
    }
  }

  /**
   * A payload without an array of products logs the command and exactly one
   * error line, and starts no lookup.
   */
  lemma MalformedPayload(command: string, params: Params)
    requires !HasProducts(params)
    ensures HandlerLines(command, params) == [Command(command), MissingProducts]
    ensures ErrorCount(HandlerLines(command, params)) == 1
    ensures Lookups(params) == []
  {
    var lines := [Command(command), MissingProducts];
    assert HandlerLines(command, params) == lines;
    assert lines[..1] == [Command(command)];
    OneMessageErrors(Command(command));
    assert ErrorCount(lines) == ErrorCount([Command(command)]) + 1;
  }

  /**
   * For an array of N products the handler logs 1 + 1 + N lines: the command,
   * the count N, and one line per product in array order, none of them an
   * error; and it starts N lookups, one per product, in array order.
   */
  lemma ValidPayload(command: string, items: seq<Product>)
    ensures |HandlerLines(command, Params(Products(items)))| == 2 + |items|
    ensures HandlerLines(command, Params(Products(items)))[0] == Command(command)
    ensures HandlerLines(command, Params(Products(items)))[1] == ProductCount(|items|)
    ensures forall k :: 0 <= k < |items| ==> HandlerLines(command, Params(Products(items)))[2 + k] == ProductRow(items[k])
    ensures ErrorCount(HandlerLines(command, Params(Products(items)))) == 0
    ensures Lookups(Params(Products(items))) == Ids(items)
  {
    var lines := HandlerLines(command, Params(Products(items)));
    assert lines == [Command(command)] + ([ProductCount(|items|)] + ProductLines(items));
    ErrorCountAppend([Command(command)], [ProductCount(|items|)] + ProductLines(items));
    ErrorCountAppend([ProductCount(|items|)], ProductLines(items));
    OneMessageErrors(Command(command));
    OneMessageErrors(ProductCount(|items|));
    NoProductErrors(items);
  }

  /**
   * productRowChangeHandler(command, params) with the k-th line it logs
   * logged at `clock(k)` (app.js:61-104); returns the ids it starts lookups
   * for, in order.
   */
  method HandleRowChange(tab: Tab, command: string, params: Params, clock: nat -> string) returns (issued: seq<Id>)
    requires tab.Valid()
    modifies tab, tab.log
    ensures tab.Valid()
    ensures issued == Lookups(params)
    ensures tab.said == old(tab.said) + Timed(HandlerLines(command, params), clock, 0)
  {
    tab.LogMessage(Command(command), clock, 0);
    ghost var rest: seq<Message>;
    if params.Params? && params.products.Products? {
      rest := BatchLines(params.products.items);
      issued := HandleProducts(tab, params.products.items, clock, 1);
    } else {
      rest := [MissingProducts];
      tab.LogMessage(MissingProducts, clock, 1);
      issued := [];
    }
    TimedThen(old(tab.said), [Command(command)], rest, clock, 0);
  }

  /**
   * The array branch of app.js:69-98: log the count, then for each product in
   * order log its line and start its lookup; the k-th line is logged at
   * `clock(from + k)`.
   */
  method HandleProducts(tab: Tab, items: seq<Product>, clock: nat -> string, from: nat) returns (issued: seq<Id>)
    requires tab.Valid()
    modifies tab, tab.log
    ensures tab.Valid()
    ensures issued == Ids(items)
    ensures tab.said == old(tab.said) + Timed(BatchLines(items), clock, from)
  {
    tab.LogMessage(ProductCount(|items|), clock, from);
    ghost var header := tab.said;
    issued := [];
    var i := 0;
    while i < |items|
      invariant 0 <= i <= |items|
      invariant tab.Valid()
      invariant issued == Ids(items[..i])
      invariant tab.said == header + Timed(ProductLines(items[..i]), clock, from + 1)
    {
      tab.LogMessage(ProductRow(items[i]), clock, from + 1 + i);
      assert tab.said == header + Timed(ProductLines(items[..i]), clock, from + 1) + Timed([ProductRow(items[i])], clock, from + 1 + i);
      ProductStep(header, items, i, clock, from + 1);
      issued := issued + [items[i].id];
      i := i + 1;
    }
    assert items[..|items|] == items;
    TimedThen(old(tab.said), [ProductCount(|items|)], ProductLines(items), clock, from);
  }
}
