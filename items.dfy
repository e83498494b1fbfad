/** The shopping-list records and the pure operations the route handlers use on
    the list: the first-match search behind `find` / `findIndex`, the one-element
    `splice`, and the partial overwrite a PATCH body performs. */
module Items {

  /** `undefined` versus a defined value, for the optional fields of a request body. */
  datatype Option<T> = None | Some(value: T)

  /** A price is opaque to the handlers: they only test whether it is defined and
      copy it. It is modelled as an integer number of cents. */
  type Price = int

  /** One `{name, price}` record of the shopping list. */
  datatype Item = Item(name: string, price: Price)

  /** A JSON request body as far as the handlers read it: `name` and `price`,
      each possibly undefined. */
  datatype Body = Body(name: Option<string>, price: Option<Price>)

  /** JavaScript truthiness of a (string) name: `undefined` and `""` are falsy. */
  predicate Truthy(name: Option<string>)
  {
    name.Some? && name.value != ""
  }

  /** Index of the first item called `name`, or -1 when there is none, as
      `Array.prototype.findIndex` with an exact (case-sensitive) name test. */
  function FirstIndex(s: seq<Item>, name: string): (k: int)
    ensures -1 <= k < |s|
    ensures k == -1 <==> forall j :: 0 <= j < |s| ==> s[j].name != name
    ensures 0 <= k ==> s[k].name == name && forall j :: 0 <= j < k ==> s[j].name != name
  {
    if |s| == 0 then -1
    else if s[0].name == name then 0
    else
      var t := FirstIndex(s[1..], name);
      if t == -1 then -1 else t + 1
  }

  /** The first item called `name`, as `Array.prototype.find`; `None` is `undefined`. */
  function Find(s: seq<Item>, name: string): (r: Option<Item>)
    ensures r.None? <==> forall j :: 0 <= j < |s| ==> s[j].name != name
    ensures r.Some? ==> r.value.name == name
    ensures r.Some? ==>
      exists k :: 0 <= k < |s| && s[k] == r.value && forall j :: 0 <= j < k ==> s[j].name != name
  {
    var k := FirstIndex(s, name);
    if k < 0 then None else Some(s[k])
  }

  /** `s` with the element at index `i` taken out, as `s.splice(i, 1)`. */
  function RemoveAt(s: seq<Item>, i: nat): (r: seq<Item>)
    requires i < |s|
    ensures |r| == |s| - 1
    ensures forall j :: 0 <= j < i ==> r[j] == s[j]
    ensures forall j :: i <= j < |r| ==> r[j] == s[j + 1]
    ensures multiset(r) + multiset{s[i]} == multiset(s)
  {
    assert s == s[..i] + [s[i]] + s[i + 1..];
    s[..i] + s[i + 1..]
  }

  /** The item after a PATCH body is applied to it: a field is overwritten only
      when the body defines it. */
  function Patched(it: Item, b: Body): (r: Item)
    ensures b.name.None? ==> r.name == it.name
    ensures b.name.Some? ==> r.name == b.name.value
    ensures b.price.None? ==> r.price == it.price
    ensures b.price.Some? ==> r.price == b.price.value
  {
    var withName := if b.name.Some? then it.(name := b.name.value) else it;
    if b.price.Some? then withName.(price := b.price.value) else withName
  }

  /** Number of items called `name`; duplicates are allowed in the list. */
  function Count(s: seq<Item>, name: string): nat
  {
    if |s| == 0 then 0
    else (if s[0].name == name then 1 else 0) + Count(s[1..], name)
  }

  // ---------------------------------------------------------------------------
  // Lemmas about the lookup, the splice and the patch

  /** The search result is determined by its contract: any index that is a
      match with no match before it is the one `FirstIndex` returns. */
  lemma FirstIndexUnique(s: seq<Item>, name: string, k: int)
    requires 0 <= k < |s| && s[k].name == name
    requires forall j :: 0 <= j < k ==> s[j].name != name
    ensures FirstIndex(s, name) == k
  {
  }

  lemma {:induction false} CountAppend(a: seq<Item>, b: seq<Item>, name: string)
    ensures Count(a + b, name) == Count(a, name) + Count(b, name)
  {
    if |a| == 0 {
      assert a + b == b;
    } else {
      assert (a + b)[1..] == a[1..] + b;
      CountAppend(a[1..], b, name);
    }
  }

  /** An item called `name` is present exactly when it is counted. */
  lemma {:induction false} CountZeroIffAbsent(s: seq<Item>, name: string)
    ensures Count(s, name) == 0 <==> FirstIndex(s, name) == -1
  {
    if |s| > 0 {
      CountZeroIffAbsent(s[1..], name);
      if s[0].name != name {
        assert forall j :: 1 <= j < |s| ==> s[j].name == s[1..][j - 1].name;
      }
    }
  }

  /** Removing one element removes exactly one occurrence of its name and
      no occurrence of any other name. */
  lemma RemoveAtCount(s: seq<Item>, i: nat, name: string)
    requires i < |s|
    ensures Count(RemoveAt(s, i), name) == Count(s, name) - (if s[i].name == name then 1 else 0)
  {
    assert s == s[..i] + ([s[i]] + s[i + 1..]);
    CountAppend(s[..i], [s[i]] + s[i + 1..], name);
    CountAppend([s[i]], s[i + 1..], name);
    assert RemoveAt(s, i) == s[..i] + s[i + 1..];
    CountAppend(s[..i], s[i + 1..], name);
  }

  /** Removing the first item called `name` leaves, as the next match, the
      first item with that name after the removed position. */
  lemma RemoveFirstThenFind(s: seq<Item>, name: string, k: nat)
    requires k < |s| && k == FirstIndex(s, name)
    ensures Find(RemoveAt(s, k), name) == Find(s[k + 1..], name)
  {
    var r := RemoveAt(s, k);
    var rest := s[k + 1..];
    var t := FirstIndex(rest, name);
    if t == -1 {
      forall j | 0 <= j < |r| ensures r[j].name != name {
        if k <= j { assert r[j] == rest[j - k]; }
      }
    } else {
      assert r[k + t] == rest[t];
      forall j | 0 <= j < k + t ensures r[j].name != name {
        if k <= j { assert r[j] == rest[j - k]; }
      }
      FirstIndexUnique(r, name, k + t);
    }
  }

  /** After the only item called `name` is removed, a lookup of `name` fails;
      with duplicates the next copy is found instead: the first item with that
      name among those after the removed one. */
  lemma DeleteThenFind(s: seq<Item>, name: string)
    requires 0 <= FirstIndex(s, name)
    ensures Count(s, name) == 1 ==> Find(RemoveAt(s, FirstIndex(s, name)), name).None?
    ensures Count(s, name) > 1 ==> Find(RemoveAt(s, FirstIndex(s, name)), name).Some?
    ensures var k := FirstIndex(s, name);
      Find(RemoveAt(s, k), name) == Find(s[k + 1..], name)
  {
    var k := FirstIndex(s, name);
    RemoveAtCount(s, k, name);
    CountZeroIffAbsent(RemoveAt(s, k), name);
    RemoveFirstThenFind(s, name, k);
  }

  /** An appended item is found by its name unless an earlier item has it. */
  lemma AppendThenFind(s: seq<Item>, x: Item)
    ensures FirstIndex(s, x.name) == -1 ==> FirstIndex(s + [x], x.name) == |s|
    ensures FirstIndex(s, x.name) != -1 ==> FirstIndex(s + [x], x.name) == FirstIndex(s, x.name)
  {
    var t := s + [x];
    if FirstIndex(s, x.name) == -1 {
      FirstIndexUnique(t, x.name, |s|);
    } else {
      FirstIndexUnique(t, x.name, FirstIndex(s, x.name));
    }
  }

  /** Overwriting the first match keeps it the first match of the new name,
      provided no earlier item carries that new name. */
  lemma SetThenFind(s: seq<Item>, k: nat, x: Item)
    requires k < |s|
    requires forall j :: 0 <= j < k ==> s[j].name != x.name
    ensures Find(s[k := x], x.name) == Some(x)
  {
    FirstIndexUnique(s[k := x], x.name, k);
  }

  /** Applying the same PATCH body twice is the same as applying it once. */
  lemma PatchedIdempotent(it: Item, b: Body)
    ensures Patched(Patched(it, b), b) == Patched(it, b)
  {
  }

  /** A PATCH body that defines neither field leaves the item as it was. */
  lemma PatchedEmptyBody(it: Item)
    ensures Patched(it, Body(None, None)) == it
  {
  }
}
