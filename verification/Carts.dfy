/** hw8's shopping carts on MySQL, with one row per product, and on DynamoDB, with a list
    that only grows. */
module Carts {
  import opened Common

  datatype Item = Item(product: int, quantity: int)

  datatype Status = Created | NoContent | BadRequest | NotFound | DatabaseError

  /** A create request comes with the id that the server draws for it. */
  datatype Request =
    | Create(id: string, customer: int)
    | Add(id: string, item: Item)

  /** The primary key of `carts` and the unique key of `cart_items` are the maps' keys. */
  datatype Tables = Tables(carts: map<string, int>, rows: map<Row, int>)

  datatype Row = Row(cart: string, product: int)

  datatype Document = Document(customer: int, items: seq<Item>)

  type Documents = map<string, Document>

  // ----- one request on MySQL -----

  function AnswerSQL(t: Tables, r: Request): Status {
    match r
    case Create(id, customer) => if customer == 0 then BadRequest else if id in t.carts then DatabaseError else Created
    case Add(id, _) => if id in t.carts then NoContent else NotFound
  }

  function QuantityAt(rows: map<Row, int>, row: Row): int {
    if row in rows then rows[row] else 0
  }

  function AfterSQL(t: Tables, r: Request): Tables {
    match AnswerSQL(t, r)
    case Created => t.(carts := t.carts[r.id := r.customer])
    case NoContent =>
      var row := Row(r.id, r.item.product);
      t.(rows := t.rows[row := QuantityAt(t.rows, row) + r.item.quantity])
    case _ => t
  }

  class MySQL {
    var carts: map<string, int>
    var rows: map<Row, int>

    constructor ()
      ensures State() == Tables(map[], map[])
    {
      carts, rows := map[], map[];
    }

    function State(): Tables
      reads this
    {
      Tables(carts, rows)
    }

    method CreateCart(id: string, customer: int) returns (status: Status)
      modifies this
      ensures status == AnswerSQL(old(State()), Create(id, customer))
      ensures State() == AfterSQL(old(State()), Create(id, customer))
      ensures status == if customer == 0 then BadRequest else if id in old(carts) then DatabaseError else Created
      ensures carts == (if status == Created then old(carts)[id := customer] else old(carts)) && rows == old(rows)
    {
      if customer == 0 {
        return BadRequest;
      }
      if id in carts {
        return DatabaseError;
      }
      carts := carts[id := customer];
      status := Created;
    }

    method AddItems(id: string, item: Item) returns (status: Status)
      modifies this
      ensures status == AnswerSQL(old(State()), Add(id, item))
      ensures State() == AfterSQL(old(State()), Add(id, item))
      ensures status == (if id in old(carts) then NoContent else NotFound) && carts == old(carts)
      ensures status == NotFound ==> rows == old(rows)
    {
      if id !in carts {
        return NotFound;
      }
      var row := Row(id, item.product);
      if row in rows {
        rows := rows[row := rows[row] + item.quantity];
      } else {
        rows := rows[row := item.quantity];
      }
      status := NoContent;
    }

    /** The customer and the quantity of each product; the query fixes no order. */
    method GetCart(id: string) returns (cart: Option<(int, map<int, int>)>)
      ensures cart.Some? <==> id in carts
      ensures cart.Some? ==>
                && cart.value.0 == carts[id]
                && (forall product :: product in cart.value.1 <==> Row(id, product) in rows)
                && (forall product :: product in cart.value.1 ==> cart.value.1[product] == rows[Row(id, product)])
    {
      if id !in carts {
        return None;
      }
      var items := map row | row in rows && row.cart == id :: row.product := rows[Row(id, row.product)];
      cart := Some((carts[id], items));
    }
  }

  // ----- one request on DynamoDB -----

  function AnswerDynamo(d: Documents, r: Request): Status {
    match r
    case Create(_, customer) => if customer == 0 then BadRequest else Created
    case Add(id, _) => if id in d then NoContent else NotFound
  }

  function AfterDynamo(d: Documents, r: Request): Documents {
    match AnswerDynamo(d, r)
    case Created => d[r.id := Document(r.customer, [])]
    case NoContent => d[r.id := Document(d[r.id].customer, d[r.id].items + [r.item])]
    case _ => d
  }

  class Dynamo {
    var documents: Documents

    constructor ()
      ensures documents == map[]
    {
      documents := map[];
    }

    /** `PutItem` has no condition: it replaces a cart that has the same id. */
    method CreateCart(id: string, customer: int) returns (status: Status)
      modifies this
      ensures status == AnswerDynamo(old(documents), Create(id, customer))
      ensures documents == AfterDynamo(old(documents), Create(id, customer))
      ensures status == if customer == 0 then BadRequest else Created
      ensures status == BadRequest ==> documents == old(documents)
    {
      if customer == 0 {
        return BadRequest;
      }
      documents := documents[id := Document(customer, [])];
      status := Created;
    }

    method AddItems(id: string, item: Item) returns (status: Status)
      modifies this
      ensures status == AnswerDynamo(old(documents), Add(id, item))
      ensures documents == AfterDynamo(old(documents), Add(id, item))
      ensures status == if id in old(documents) then NoContent else NotFound
      ensures status == NotFound ==> documents == old(documents)
    {
      if id !in documents {
        return NotFound;
      }
      documents := documents[id := Document(documents[id].customer, documents[id].items + [item])];
      status := NoContent;
    }
  }

  // ----- any sequence of requests -----

  function RunSQL(requests: seq<Request>): Tables {
    if requests == [] then Tables(map[], map[])
    else AfterSQL(RunSQL(requests[..|requests| - 1]), requests[|requests| - 1])
  }

  function RunDynamo(requests: seq<Request>): Documents {
    if requests == [] then map[]
    else AfterDynamo(RunDynamo(requests[..|requests| - 1]), requests[|requests| - 1])
  }

  /** The answer to request `i`. */
  function SQLAnswer(requests: seq<Request>, i: nat): Status
    requires i < |requests|
  {
    AnswerSQL(RunSQL(requests[..i]), requests[i])
  }

  function DynamoAnswer(requests: seq<Request>, i: nat): Status
    requires i < |requests|
  {
    AnswerDynamo(RunDynamo(requests[..i]), requests[i])
  }

  predicate Creates(r: Request) {
    r.Create? && r.customer != 0
  }

  /** No two accepted creates draw the same id. */
  ghost predicate FreshIDs(requests: seq<Request>) {
    forall i, j :: 0 <= i < j < |requests| && Creates(requests[i]) && Creates(requests[j]) ==>
      requests[i].id != requests[j].id
  }

  ghost predicate SameAnswers(requests: seq<Request>) {
    forall i :: 0 <= i < |requests| ==> SQLAnswer(requests, i) == DynamoAnswer(requests, i)
  }

  /** The sum of a product's quantities in a list. */
  function Total(items: seq<Item>, product: int): int {
    if items == [] then 0
    else
      var last := items[|items| - 1];
      Total(items[..|items| - 1], product) + if last.product == product then last.quantity else 0
  }

  predicate Lists(items: seq<Item>, product: int) {
    exists i :: 0 <= i < |items| && items[i].product == product
  }

  /** The carts are the same, a cart has a row for exactly the products on its list, and a
      row's quantity is the total on the list. */
  ghost predicate Mirrors(t: Tables, d: Documents) {
    && (forall id :: id in t.carts <==> id in d)
    && (forall id :: id in d ==> t.carts[id] == d[id].customer)
    && (forall row :: row in t.rows <==> row.cart in d && Lists(d[row.cart].items, row.product))
    && (forall row :: row in t.rows ==> t.rows[row] == Total(d[row.cart].items, row.product))
  }

  /** Ids in use come from accepted creates. */
  lemma {:induction false} IDsWereCreated(requests: seq<Request>, id: string)
    ensures id in RunDynamo(requests) <==> exists i :: 0 <= i < |requests| && Creates(requests[i]) && requests[i].id == id
  {
    if requests != [] {
      var k := |requests| - 1;
      IDsWereCreated(requests[..k], id);
      hide RunDynamo;
      assert RunDynamo(requests) == AfterDynamo(RunDynamo(requests[..k]), requests[k]);
    }
  }

  lemma ListGrows(items: seq<Item>, item: Item, product: int)
    ensures Total(items + [item], product) == Total(items, product) + if item.product == product then item.quantity else 0
    ensures Lists(items + [item], product) <==> Lists(items, product) || item.product == product
    ensures !Lists(items, product) ==> Total(items, product) == 0
  {
    assert (items + [item])[..|items|] == items;
    assert item.product == product ==> (items + [item])[|items|].product == product;
    if i :| 0 <= i < |items| && items[i].product == product {
      assert (items + [item])[i].product == product;
    } else {
      TotalOfUnlisted(items, product);
    }
  }

  lemma {:induction false} TotalOfUnlisted(items: seq<Item>, product: int)
    requires !Lists(items, product)
    ensures Total(items, product) == 0
  {
    if items != [] {
      TotalOfUnlisted(items[..|items| - 1], product);
    }
  }

  lemma AddStep(t: Tables, d: Documents, r: Request)
    requires Mirrors(t, d) && r.Add?
    ensures AnswerSQL(t, r) == AnswerDynamo(d, r)
    ensures Mirrors(AfterSQL(t, r), AfterDynamo(d, r))
  {
    if r.id in d {
      forall row: Row | row.cart == r.id
        ensures row in AfterSQL(t, r).rows <==> Lists(AfterDynamo(d, r)[r.id].items, row.product)
        ensures row in AfterSQL(t, r).rows ==> AfterSQL(t, r).rows[row] == Total(AfterDynamo(d, r)[r.id].items, row.product)
      {
        hide Total, Lists;
        ListGrows(d[r.id].items, r.item, row.product);
        assert row.product == r.item.product <==> row == Row(r.id, r.item.product);
      }
    }
  }

  lemma CreateStep(t: Tables, d: Documents, r: Request)
    requires Mirrors(t, d) && r.Create?
    ensures AnswerSQL(t, r) == AnswerDynamo(d, r) <==> !(Creates(r) && r.id in d)
    ensures !(Creates(r) && r.id in d) ==> Mirrors(AfterSQL(t, r), AfterDynamo(d, r))
  {
    assert forall row: Row :: row.cart == r.id && r.id !in d ==> row !in t.rows;
    assert forall product :: !Lists([], product);
  }

  lemma FreshPrefix(requests: seq<Request>)
    requires requests != []
    ensures FreshIDs(requests) <==>
            && FreshIDs(requests[..|requests| - 1])
            && !(Creates(requests[|requests| - 1]) && requests[|requests| - 1].id in RunDynamo(requests[..|requests| - 1]))
  {
    var before, last := requests[..|requests| - 1], requests[|requests| - 1];
    IDsWereCreated(before, last.id);
    hide RunDynamo;
    if FreshIDs(before) && !(Creates(last) && last.id in RunDynamo(before)) {
      forall i, j | 0 <= i < j < |requests| && Creates(requests[i]) && Creates(requests[j])
        ensures requests[i].id != requests[j].id
      {
        assert requests[i] == before[i];
        if j < |before| {
          assert requests[j] == before[j];
        }
      }
    }
    if FreshIDs(requests) {
      forall i, j | 0 <= i < j < |before| && Creates(before[i]) && Creates(before[j]) ensures before[i].id != before[j].id {
        assert requests[i] == before[i] && requests[j] == before[j];
      }
    }
  }

  lemma SamePrefix(requests: seq<Request>)
    requires requests != []
    ensures SameAnswers(requests) <==>
            && SameAnswers(requests[..|requests| - 1])
            && SQLAnswer(requests, |requests| - 1) == DynamoAnswer(requests, |requests| - 1)
  {
    var before := requests[..|requests| - 1];
    forall i: nat | i < |before|
      ensures SQLAnswer(requests, i) == SQLAnswer(before, i) && DynamoAnswer(requests, i) == DynamoAnswer(before, i)
    {
      assert before[..i] == requests[..i] && before[i] == requests[i];
    }
    hide SQLAnswer, DynamoAnswer;
  }

  /** The two backends give the same answers to a sequence of requests exactly if no two
      accepted creates draw the same id; and then their contents mirror each other. */
  lemma {:induction false} BackendsAgreeIffFresh(requests: seq<Request>)
    ensures SameAnswers(requests) <==> FreshIDs(requests)
    ensures FreshIDs(requests) ==> Mirrors(RunSQL(requests), RunDynamo(requests))
  {
    if requests != [] {
      var before, last := requests[..|requests| - 1], requests[|requests| - 1];
      BackendsAgreeIffFresh(before);
      FreshPrefix(requests);
      SamePrefix(requests);
      hide SameAnswers, FreshIDs, Mirrors, AnswerSQL, AnswerDynamo, AfterSQL, AfterDynamo;
      if FreshIDs(before) {
        if last.Add? {
          AddStep(RunSQL(before), RunDynamo(before), last);
        } else {
          CreateStep(RunSQL(before), RunDynamo(before), last);
        }
      }
    }
  }

  // ----- nothing acknowledged is lost -----

  predicate AddsTo(r: Request, id: string) {
    r.Add? && r.id == id
  }

  /** The items added to a cart by requests that MySQL answered with `NoContent`, in order. */
  function Acknowledged(requests: seq<Request>, id: string): seq<Item> {
    if requests == [] then []
    else
      var k := |requests| - 1;
      Acknowledged(requests[..k], id)
      + if AddsTo(requests[k], id) && SQLAnswer(requests, k) == NoContent then [requests[k].item] else []
  }

  /** A MySQL row is the sum of the acknowledged quantities, whatever ids are drawn. */
  lemma {:induction false} RowsSumAcknowledged(requests: seq<Request>, row: Row)
    ensures QuantityAt(RunSQL(requests).rows, row) == Total(Acknowledged(requests, row.cart), row.product)
    ensures row in RunSQL(requests).rows <==> Lists(Acknowledged(requests, row.cart), row.product)
  {
    if requests != [] {
      var before, last := requests[..|requests| - 1], requests[|requests| - 1];
      RowsSumAcknowledged(before, row);
      var items := Acknowledged(before, row.cart);
      assert items + [] == items;
      if AddsTo(last, row.cart) {
        ListGrows(items, last.item, row.product);
        hide Total, Lists;
        assert row.product == last.item.product <==> row == Row(last.id, last.item.product);
      } else {
        hide Total, Lists;
        assert Acknowledged(requests, row.cart) == items;
        assert row in AfterSQL(RunSQL(before), last).rows <==> row in RunSQL(before).rows;
      }
    }
  }

  /** A DynamoDB list is the acknowledged items in the order of the requests, as long as no
      create draws an id again and so replaces a cart. */
  lemma {:induction false} ListsAreAcknowledged(requests: seq<Request>, id: string)
    requires FreshIDs(requests)
    ensures Acknowledged(requests, id) == if id in RunDynamo(requests) then RunDynamo(requests)[id].items else []
  {
    if requests != [] {
      var before, last := requests[..|requests| - 1], requests[|requests| - 1];
      FreshPrefix(requests);
      BackendsAgreeIffFresh(before);
      assert id in RunSQL(before).carts <==> id in RunDynamo(before);
      hide FreshIDs, Mirrors;
      ListsAreAcknowledged(before, id);
    }
  }

  /** Drawing an id again empties a DynamoDB cart that MySQL would keep. */
  lemma {:induction false} RedrawnIDLosesItems(requests: seq<Request>, id: string, customer: int)
    requires FreshIDs(requests) && customer != 0 && id in RunDynamo(requests)
    ensures var more := requests + [Create(id, customer)];
            && RunDynamo(more)[id].items == []
            && RunSQL(more) == RunSQL(requests)
            && SQLAnswer(more, |requests|) == DatabaseError && DynamoAnswer(more, |requests|) == Created
  {
    var more := requests + [Create(id, customer)];
    assert more[..|requests|] == requests;
    BackendsAgreeIffFresh(requests);
  }
}
