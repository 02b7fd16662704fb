/** The line items of the invoice form (src/components/files/InvoiceCreator.tsx):
    the edits the form applies to its item list and the total derived from
    it. Quantities and unit prices are whole numbers (a unit price typed
    with a fraction is not modelled). */
module Items {

  /** One line of the invoice. `id` is the clock reading at creation. */
  datatype Item = Item(
    id: int,
    productNumber: int,
    productName: string,
    quantity: int,
    unitPrice: int,
    unit: string)

  /** The four cells the form lets the user edit, with their new value. */
  datatype ItemEdit =
    | ProductName(name: string)
    | Quantity(quantity: int)
    | Unit(unit: string)
    | UnitPrice(price: int)

  /** `{ ...item, [field]: value }`. */
  function ApplyEdit(item: Item, e: ItemEdit): Item
  {
    match e
    case ProductName(s) => item.(productName := s)
    case Quantity(n) => item.(quantity := n)
    case Unit(s) => item.(unit := s)
    case UnitPrice(p) => item.(unitPrice := p)
  }

  /** The line subtotal `quantity * unitPrice`. */
  function Line(item: Item): int
  {
    item.quantity * item.unitPrice
  }

  /** `items.reduce((sum, item) => sum + item.quantity * item.unitPrice, 0)`. */
  function ItemsTotal(items: seq<Item>): int
  {
    if items == [] then 0 else ItemsTotal(items[..|items| - 1]) + Line(items[|items| - 1])
  }

  lemma {:induction false} ItemsTotalAppend(a: seq<Item>, b: seq<Item>)
    ensures ItemsTotal(a + b) == ItemsTotal(a) + ItemsTotal(b)
    decreases |b|
  {
    if b == [] {
      assert a + b == a;
    } else {
      assert (a + b)[..|a + b| - 1] == a + b[..|b| - 1];
      ItemsTotalAppend(a, b[..|b| - 1]);
    }
  }

  /** The item addItem appends: the next product number, an empty name,
      quantity 1, unit price 0 and the form's unit
      (src/components/files/InvoiceCreator.tsx:128-131). */
  function NewItem(items: seq<Item>, now: int, unit: string): (r: Item)
    ensures r.productNumber == |items| + 1 && r.quantity == 1 && r.unitPrice == 0
    ensures r.id == now && r.productName == "" && r.unit == unit
  {
    Item(now, |items| + 1, "", 1, 0, unit)
  }

  /** `prevItems.map(item => item.id === id ? { ...item, [field]: value } : item)`
      (src/components/files/InvoiceCreator.tsx:120-126). */
  function ChangeItems(items: seq<Item>, id: int, e: ItemEdit): (r: seq<Item>)
    ensures |r| == |items|
    ensures forall i :: 0 <= i < |items| && items[i].id == id ==> r[i] == ApplyEdit(items[i], e)
    ensures forall i :: 0 <= i < |items| && items[i].id != id ==> r[i] == items[i]
  {
    if items == [] then []
    else
      var last := items[|items| - 1];
      ChangeItems(items[..|items| - 1], id, e) + [if last.id == id then ApplyEdit(last, e) else last]
  }

  /** `items.filter(item => item.id !== id)`
      (src/components/files/InvoiceCreator.tsx:133-135). */
  function RemoveItems(items: seq<Item>, id: int): (r: seq<Item>)
    ensures |r| <= |items|
  {
    if items == [] then []
    else
      var last := items[|items| - 1];
      RemoveItems(items[..|items| - 1], id) + (if last.id == id then [] else [last])
  }

  /** Removing keeps exactly the items with another id. */
  lemma {:induction false} RemoveItemsMembers(items: seq<Item>, id: int)
    ensures forall x :: x in RemoveItems(items, id) <==> x in items && x.id != id
  {
    if items != [] {
      RemoveItemsMembers(items[..|items| - 1], id);
      assert items == items[..|items| - 1] + [items[|items| - 1]];
    }
  }

  /** Removing keeps the remaining items in their order: filtering a
      concatenation filters each part in place. */
  lemma {:induction false} RemoveItemsAppend(a: seq<Item>, b: seq<Item>, id: int)
    ensures RemoveItems(a + b, id) == RemoveItems(a, id) + RemoveItems(b, id)
    decreases |b|
  {
    if b == [] {
      assert a + b == a;
    } else {
      var b' := b[..|b| - 1];
      assert (a + b)[..|a + b| - 1] == a + b';
      RemoveItemsAppend(a, b', id);
    }
  }

  /** An id no item carries: removing it changes nothing. */
  lemma {:induction false} RemoveAbsentId(items: seq<Item>, id: int)
    requires forall i :: 0 <= i < |items| ==> items[i].id != id
    ensures RemoveItems(items, id) == items
  {
    if items != [] {
      RemoveAbsentId(items[..|items| - 1], id);
      assert items == items[..|items| - 1] + [items[|items| - 1]];
    }
  }

  /** Exactly the item at `k` carries `id`. */
  predicate OnlyAt(items: seq<Item>, k: int, id: int)
  {
    0 <= k < |items| && items[k].id == id
    && forall i :: 0 <= i < |items| && i != k ==> items[i].id != id
  }

  /** Removing the one item with an id leaves the items around it, in order,
      and lowers the total by that item's line. */
  lemma RemoveOnlyItem(items: seq<Item>, k: int, id: int)
    requires OnlyAt(items, k, id)
    ensures RemoveItems(items, id) == items[..k] + items[k + 1..]
    ensures ItemsTotal(RemoveItems(items, id)) == ItemsTotal(items) - Line(items[k])
  {
    var pre, x, post := items[..k], items[k], items[k + 1..];
    assert items == pre + [x] + post;
    assert forall i :: 0 <= i < |pre| ==> pre[i].id != id;
    assert forall i :: 0 <= i < |post| ==> post[i].id != id by {
      forall i | 0 <= i < |post| ensures post[i].id != id {
        assert post[i] == items[k + 1 + i];
      }
    }
    RemoveAbsentId(pre, id);
    RemoveAbsentId(post, id);
    RemoveDropsOne(pre, x, post, id);
    ItemsTotalAppend(pre + [x], post);
    ItemsTotalAppend(pre, [x]);
    ItemsTotalAppend(pre, post);
    assert [x][..0] == [];
  }

  lemma RemoveDropsOne(pre: seq<Item>, x: Item, post: seq<Item>, id: int)
    requires x.id == id && RemoveItems(pre, id) == pre && RemoveItems(post, id) == post
    ensures RemoveItems(pre + [x] + post, id) == pre + post
  {
    assert [x][..0] == [];
    assert RemoveItems([x], id) == [];
    RemoveItemsAppend(pre, [x], id);
    assert RemoveItems(pre + [x], id) == pre + [];
    RemoveItemsAppend(pre + [x], post, id);
  }

  /** Replacing one element changes the total by the difference of the two
      lines. */
  lemma ItemsTotalUpdate(items: seq<Item>, k: int, x: Item)
    requires 0 <= k < |items|
    ensures ItemsTotal(items[k := x]) == ItemsTotal(items) - Line(items[k]) + Line(x)
  {
    assert items == items[..k] + [items[k]] + items[k + 1..];
    assert items[k := x] == items[..k] + [x] + items[k + 1..];
    ItemsTotalAppend(items[..k] + [items[k]], items[k + 1..]);
    ItemsTotalAppend(items[..k], [items[k]]);
    ItemsTotalAppend(items[..k] + [x], items[k + 1..]);
    ItemsTotalAppend(items[..k], [x]);
    assert [x][..0] == [] && [items[k]][..0] == [];
  }

  /** Editing the one item with an id changes that item alone, and the total
      by the change of its line: a name or unit edit keeps the total. */
  lemma ChangeOnlyItem(items: seq<Item>, k: int, id: int, e: ItemEdit)
    requires OnlyAt(items, k, id)
    ensures ChangeItems(items, id, e) == items[k := ApplyEdit(items[k], e)]
    ensures ItemsTotal(ChangeItems(items, id, e)) == ItemsTotal(items) - Line(items[k]) + Line(ApplyEdit(items[k], e))
    ensures e.ProductName? || e.Unit? ==> ItemsTotal(ChangeItems(items, id, e)) == ItemsTotal(items)
  {
    ItemsTotalUpdate(items, k, ApplyEdit(items[k], e));
  }

  /** Editing a name or a unit never changes the total, whichever items
      carry the id. */
  lemma {:induction false} TextEditKeepsTotal(items: seq<Item>, id: int, e: ItemEdit)
    requires e.ProductName? || e.Unit?
    ensures ItemsTotal(ChangeItems(items, id, e)) == ItemsTotal(items)
  {
    if items != [] {
      var r := ChangeItems(items, id, e);
      TextEditKeepsTotal(items[..|items| - 1], id, e);
      assert r[..|r| - 1] == ChangeItems(items[..|items| - 1], id, e);
    }
  }

  /** A new item has a zero line: adding it keeps the total. */
  lemma AddItemKeepsTotal(items: seq<Item>, now: int, unit: string)
    ensures ItemsTotal(items + [NewItem(items, now, unit)]) == ItemsTotal(items)
  {
    assert (items + [NewItem(items, now, unit)])[..|items|] == items;
  }

  /** The worked example: two at 1000 yen and one at 500 yen make 2500. */
  lemma ItemsTotalExample()
    ensures ItemsTotal([Item(1, 1, "A", 2, 1000, "個"), Item(2, 2, "B", 1, 500, "個")]) == 2500
  {
    var a, b := Item(1, 1, "A", 2, 1000, "個"), Item(2, 2, "B", 1, 500, "個");
    assert [a, b][..1] == [a] && [a][..0] == [];
  }
}
