/** The five route handlers of the shopping-list service over the shared,
    in-memory list of items. Each handler returns its HTTP status and JSON
    payload as a `Response` value instead of writing to an Express response. */
module Routes {
  import opened Items

  const OK: int := 200
  const Created: int := 201
  const BadRequest: int := 400
  const NotFound: int := 404

  const ItemNotFound: string := "Item not found"
  const FieldsRequired: string := "Name and price are required"
  const DeletedMessage: string := "Deleted"

  /** The JSON shapes the handlers answer with. */
  datatype Payload =
    | ItemList(items: seq<Item>)   // [{name, price}, ...]
    | Added(item: Item)            // {added: {name, price}}
    | Found(item: Item)            // {name, price}
    | Updated(item: Item)          // {updated: {name, price}}
    | Message(text: string)        // {message: ...}
    | Error(text: string)          // {error: ...}

  datatype Response = Response(status: int, payload: Payload)

  /** The validation of POST /items: `!name || price === undefined` rejects,
      so an empty name is refused while a price of 0 is accepted. */
  predicate CreateAccepts(b: Body)
  {
    Truthy(b.name) && b.price.Some?
  }

  /** The module-level `items` array, owned by one store object. */
  class ItemStore {
    var items: seq<Item>

    constructor ()
      ensures items == []
    {
      items := [];
    }

    /** GET /items: the list as stored, in insertion order. */
    method List() returns (r: Response)
      ensures r.status == OK
      ensures r.payload == ItemList(items)
    {
      r := Response(OK, ItemList(items));
    }

    /** POST /items. A rejected body leaves the list alone; an accepted one
        appends exactly the new `{name, price}` record. The rejection answers
        with the status and message the service's tests expect (400, "Name and
        price are required"); routes.js itself answers 404 with "Name and Price
        are required". */
    method Create(body: Body) returns (r: Response)
      modifies this
      ensures !CreateAccepts(body) ==>
        items == old(items) && r == Response(BadRequest, Error(FieldsRequired))
      ensures CreateAccepts(body) ==>
        var added := Item(body.name.value, body.price.value);
        items == old(items) + [added] && r == Response(Created, Added(added))
    {
      if !Truthy(body.name) || body.price.None? {
        r := Response(BadRequest, Error(FieldsRequired));
        return;
      }
      var newItem := Item(body.name.value, body.price.value);
      items := items + [newItem];
      r := Response(Created, Added(newItem));
    }

    /** GET /items/:name: the first item with exactly that name, or 404. */
    method Get(name: string) returns (r: Response)
      ensures (r.status == OK) <==> exists j :: 0 <= j < |items| && items[j].name == name
      ensures r.status == OK ==>
        r.payload.Found? && r.payload.item == items[FirstIndex(items, name)]
      ensures r.status != OK ==> r == Response(NotFound, Error(ItemNotFound))
    {
      var item := Find(items, name);
      if item.None? {
        r := Response(NotFound, Error(ItemNotFound));
        return;
      }
      r := Response(OK, Found(item.value));
    }

    /** PATCH /items/:name: overwrite, in place, the fields the body defines on
        the first item with that name. The answer carries the item after the
        update as `{updated: item}`, the shape the service's tests expect;
        routes.js:83 passes an undefined identifier to `res.json` instead. */
    method Update(name: string, body: Body) returns (r: Response)
      modifies this
      ensures var k := FirstIndex(old(items), name);
        k == -1 ==> items == old(items) && r == Response(NotFound, Error(ItemNotFound))
      ensures var k := FirstIndex(old(items), name);
        0 <= k ==>
          && |items| == |old(items)|
          && items[k] == Patched(old(items)[k], body)
          && (forall j :: 0 <= j < |items| && j != k ==> items[j] == old(items)[j])
          && r == Response(OK, Updated(items[k]))
    {
      var k := FirstIndex(items, name);
      if k == -1 {
        r := Response(NotFound, Error(ItemNotFound));
        return;
      }
      var item := items[k];
      if body.name.Some? {
        item := item.(name := body.name.value);
      }
      if body.price.Some? {
        item := item.(price := body.price.value);
      }
      items := items[k := item];
      r := Response(OK, Updated(item));
    }

    /** DELETE /items/:name: remove the first item with that name, keeping the
        order of the others. */
    method Delete(name: string) returns (r: Response)
      modifies this
      ensures var k := FirstIndex(old(items), name);
        k == -1 ==> items == old(items) && r == Response(NotFound, Error(ItemNotFound))
      ensures var k := FirstIndex(old(items), name);
        0 <= k ==>
          && items == RemoveAt(old(items), k)
          && Count(items, name) == Count(old(items), name) - 1
          && r == Response(OK, Message(DeletedMessage))
    {
      var itemIndex := FirstIndex(items, name);
      if itemIndex == -1 {
        r := Response(NotFound, Error(ItemNotFound));
        return;
      }
      RemoveAtCount(items, itemIndex, name);
      items := items[..itemIndex] + items[itemIndex + 1..];
      r := Response(OK, Message(DeletedMessage));
    }
  }

  /** A client of the store: a request sequence modelled on the service's
      tests, run against one store that starts empty. Unlike the tests, the
      list is not cleared between requests, and `popsicle` is created through
      the handler rather than pushed onto the list directly. Every assertion
      follows from the handlers' contracts alone. */
  method Session()
  {
    var store := new ItemStore();
    var r := store.Create(Body(Some("popsicle"), Some(145)));
    assert r == Response(Created, Added(Item("popsicle", 145)));
    r := store.List();
    assert r == Response(OK, ItemList([Item("popsicle", 145)]));
    r := store.Create(Body(Some("cheerios"), Some(340)));
    assert r == Response(Created, Added(Item("cheerios", 340)));
    assert store.items == [Item("popsicle", 145), Item("cheerios", 340)];
    r := store.Create(Body(Some("incomplete"), None));
    assert r == Response(BadRequest, Error(FieldsRequired));
    assert store.items == [Item("popsicle", 145), Item("cheerios", 340)];
    assert store.items[0].name == "popsicle";
    r := store.Get("popsicle");
    assert r == Response(OK, Found(Item("popsicle", 145)));
    r := store.Get("nonexistent");
    assert r == Response(NotFound, Error(ItemNotFound));
    r := store.Update("popsicle", Body(Some("new popsicle"), Some(245)));
    assert r == Response(OK, Updated(Item("new popsicle", 245)));
    assert store.items == [Item("new popsicle", 245), Item("cheerios", 340)];
    r := store.Update("nonexistent", Body(Some("test"), None));
    assert r == Response(NotFound, Error(ItemNotFound));
    assert store.items[0].name == "new popsicle";
    r := store.Delete("new popsicle");
    assert r == Response(OK, Message(DeletedMessage));
    assert store.items == [Item("cheerios", 340)];
    r := store.Delete("new popsicle");
    assert r == Response(NotFound, Error(ItemNotFound));
    r := store.Delete("nonexistent");
    assert r == Response(NotFound, Error(ItemNotFound));
    r := store.List();
    assert r == Response(OK, ItemList([Item("cheerios", 340)]));
  }
}
