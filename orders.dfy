/**
 * Orders in server.js: the menu selection of `/place-order` and the
 * `filter`/`map`/`sort`/`reduce` chains of `/my-orders` and
 * `/request-bill`.
 */
module Orders {
  import opened Util

  /** A menu entry; only `id` and `price` take part in ordering. */
  datatype MenuItem = MenuItem(id: int, name: string, emoji: string, price: int)

  /** A selected line `{ name, emoji, price, qty, subtotal }`. */
  datatype Item = Item(name: string, emoji: string, price: int, qty: int, subtotal: int)

  /**
   * An orders-store record. The placeholder written on OTP success has no
   * `orderCode` and no `notes`; a placed order has both.
   */
  datatype Order = Order(
    table: int,
    phone: Option<string>,
    sessionId: string,
    orderCode: Option<string>,
    items: seq<Item>,
    notes: Option<string>,
    total: int,
    createdAt: int,
    status: string)

  /**
   * `parseInt(req.body['item_' + id]) || 0`: `form` holds the parsed
   * quantity fields; a missing or non-numeric field is absent and reads as 0.
   */
  function Quantity(form: map<int, int>, id: int): int {
    if id in form then form[id] else 0
  }

  /** The lines the selection loop pushes, in menu order. */
  function Selected(menu: seq<MenuItem>, form: map<int, int>): (r: seq<Item>)
    ensures |r| <= |menu|
    ensures forall i :: 0 <= i < |r| ==> r[i].qty > 0 && r[i].subtotal == r[i].price * r[i].qty
    decreases |menu|
  {
    if menu == [] then []
    else
      var m := menu[|menu| - 1];
      var q := Quantity(form, m.id);
      Selected(menu[..|menu| - 1], form) + (if q > 0 then [Item(m.name, m.emoji, m.price, q, m.price * q)] else [])
  }

  /** The order total as the sum of `price * qty` over the menu items with a positive quantity. */
  function MenuTotal(menu: seq<MenuItem>, form: map<int, int>): int
    decreases |menu|
  {
    if menu == [] then 0
    else
      var m := menu[|menu| - 1];
      var q := Quantity(form, m.id);
      MenuTotal(menu[..|menu| - 1], form) + (if q > 0 then m.price * q else 0)
  }

  function SumSubtotals(items: seq<Item>): int
    decreases |items|
  {
    if items == [] then 0 else SumSubtotals(items[..|items| - 1]) + items[|items| - 1].subtotal
  }

  /** The loop of `/place-order` over the menu, building `selectedItems` and `total`. */
  method SelectItems(menu: seq<MenuItem>, form: map<int, int>) returns (items: seq<Item>, total: int)
    ensures items == Selected(menu, form)
    ensures total == MenuTotal(menu, form)
  {
    items := [];
    total := 0;
    var i := 0;
    while i < |menu|
      invariant 0 <= i <= |menu|
      invariant items == Selected(menu[..i], form)
      invariant total == MenuTotal(menu[..i], form)
    {
      var item := menu[i];
      var qty := Quantity(form, item.id);
      assert menu[..i + 1][..i] == menu[..i];
      if qty > 0 {
        items := items + [Item(item.name, item.emoji, item.price, qty, item.price * qty)];
        total := total + item.price * qty;
      }
      i := i + 1;
    }
    assert menu[..i] == menu;
  }

  /** The stored total is the sum of the stored subtotals. */
  lemma {:induction false} SelectedTotal(menu: seq<MenuItem>, form: map<int, int>)
    ensures SumSubtotals(Selected(menu, form)) == MenuTotal(menu, form)
    decreases |menu|
  {
    if menu != [] {
      var init := menu[..|menu| - 1];
      SelectedTotal(init, form);
      var m := menu[|menu| - 1];
      var q := Quantity(form, m.id);
      var s := Selected(init, form);
      if q > 0 {
        var line := Item(m.name, m.emoji, m.price, q, m.price * q);
        assert Selected(menu, form) == s + [line];
        assert (s + [line])[..|s|] == s;
      } else {
        assert Selected(menu, form) == s + [] == s;
      }
    }
  }

  /** Nothing is selected exactly when no menu item has a positive quantity. */
  lemma {:induction false} NothingSelectedIff(menu: seq<MenuItem>, form: map<int, int>)
    ensures Selected(menu, form) == [] <==> forall i :: 0 <= i < |menu| ==> Quantity(form, menu[i].id) <= 0
    decreases |menu|
  {
    if menu != [] {
      var init := menu[..|menu| - 1];
      NothingSelectedIff(init, form);
      assert forall i :: 0 <= i < |init| ==> init[i] == menu[i];
    }
  }

  /** `o.sessionId === scanId && o.items && o.items.length > 0`. */
  predicate Shown(o: Order, scanId: string) {
    o.sessionId == scanId && |o.items| > 0
  }

  /**
   * `Object.entries(orders)` in some enumeration: every listed pair is a
   * stored order under its code, every stored code is listed, and no code
   * twice.
   */
  ghost predicate IsListing(listing: seq<(string, Order)>, orders: map<string, Order>) {
    && (forall i :: 0 <= i < |listing| ==> listing[i].0 in orders && orders[listing[i].0] == listing[i].1)
    && (forall c :: c in orders ==> exists i :: 0 <= i < |listing| && listing[i].0 == c)
    && (forall i, j :: 0 <= i < j < |listing| ==> listing[i].0 != listing[j].0)
  }

  /** The `filter` step, keeping `{ code, ...o }` as the pair (code, order). */
  function Mine(listing: seq<(string, Order)>, scanId: string): (r: seq<(string, Order)>)
    ensures forall p :: p in r <==> p in listing && Shown(p.1, scanId)
    decreases |listing|
  {
    if listing == [] then []
    else
      var p := listing[|listing| - 1];
      Mine(listing[..|listing| - 1], scanId) + (if Shown(p.1, scanId) then [p] else [])
  }

  /** A customer's page lists exactly the stored orders of the session that have items. */
  lemma MineExact(listing: seq<(string, Order)>, orders: map<string, Order>, scanId: string, code: string)
    requires IsListing(listing, orders)
    ensures (exists o :: (code, o) in Mine(listing, scanId)) <==> code in orders && Shown(orders[code], scanId)
  {
    if code in orders && Shown(orders[code], scanId) {
      var i :| 0 <= i < |listing| && listing[i].0 == code;
      assert listing[i] in listing;
      assert (code, orders[code]) in Mine(listing, scanId);
    }
  }

  ghost predicate NewestFirst(xs: seq<(string, Order)>) {
    forall i, j :: 0 <= i < j < |xs| ==> xs[i].1.createdAt >= xs[j].1.createdAt
  }

  /** Places `p` before the first entry that is not newer, as a stable sort does. */
  function Insert(p: (string, Order), xs: seq<(string, Order)>): (r: seq<(string, Order)>)
    ensures multiset(r) == multiset(xs) + multiset{p}
    decreases |xs|
  {
    if xs == [] || p.1.createdAt >= xs[0].1.createdAt then [p] + xs
    else
      assert xs == [xs[0]] + xs[1..];
      [xs[0]] + Insert(p, xs[1..])
  }

  lemma {:induction false} InsertNewestFirst(p: (string, Order), xs: seq<(string, Order)>)
    requires NewestFirst(xs)
    ensures NewestFirst(Insert(p, xs))
    decreases |xs|
  {
    if xs != [] && p.1.createdAt < xs[0].1.createdAt {
      var rest := Insert(p, xs[1..]);
      InsertNewestFirst(p, xs[1..]);
      forall q | q in rest
        ensures q.1.createdAt <= xs[0].1.createdAt
      {
        assert q in multiset(rest);
        if q != p {
          assert q in multiset(xs[1..]);
          var j :| 0 <= j < |xs[1..]| && xs[1..][j] == q;
          assert xs[j + 1] == q;
        }
      }
      var r := [xs[0]] + rest;
      forall i, j | 0 <= i < j < |r|
        ensures r[i].1.createdAt >= r[j].1.createdAt
      {
        if i == 0 {
          assert r[j] == rest[j - 1] && rest[j - 1] in rest;
        } else {
          assert r[i] == rest[i - 1] && r[j] == rest[j - 1];
        }
      }
    }
  }

  /** `.sort((a, b) => b.createdAt - a.createdAt)`: newest first, ties kept in listing order. */
  function NewestFirstSort(xs: seq<(string, Order)>): (r: seq<(string, Order)>)
    ensures multiset(r) == multiset(xs)
    ensures NewestFirst(r)
    decreases |xs|
  {
    if xs == [] then []
    else
      assert xs == [xs[0]] + xs[1..];
      InsertNewestFirst(xs[0], NewestFirstSort(xs[1..]));
      Insert(xs[0], NewestFirstSort(xs[1..]))
  }

  /** `myOrders.reduce((sum, o) => sum + (o.total || 0), 0)`: no order total negative, no page total negative. */
  function GrandTotal(xs: seq<(string, Order)>): (r: int)
    ensures (forall i :: 0 <= i < |xs| ==> xs[i].1.total >= 0) ==> r >= 0
    decreases |xs|
  {
    if xs == [] then 0 else GrandTotal(xs[..|xs| - 1]) + xs[|xs| - 1].1.total
  }

  /** `myOrders.flatMap(o => o.items || [])`: every line of every order, and nothing else. */
  function AllItems(xs: seq<(string, Order)>): (r: seq<Item>)
    ensures forall it :: it in r <==> exists i :: 0 <= i < |xs| && it in xs[i].1.items
    ensures forall i :: 0 <= i < |xs| ==> |xs[i].1.items| <= |r|
    decreases |xs|
  {
    if xs == [] then [] else AllItems(xs[..|xs| - 1]) + xs[|xs| - 1].1.items
  }

  lemma {:induction false} SumSubtotalsAppend(a: seq<Item>, b: seq<Item>)
    ensures SumSubtotals(a + b) == SumSubtotals(a) + SumSubtotals(b)
    decreases |b|
  {
    if b == [] {
      assert a + b == a;
    } else {
      assert (a + b)[..|a + b| - 1] == a + b[..|b| - 1];
      SumSubtotalsAppend(a, b[..|b| - 1]);
    }
  }

  lemma {:induction false} GrandTotalFront(p: (string, Order), xs: seq<(string, Order)>)
    ensures GrandTotal([p] + xs) == p.1.total + GrandTotal(xs)
    decreases |xs|
  {
    if xs != [] {
      assert ([p] + xs)[..|[p] + xs| - 1] == [p] + xs[..|xs| - 1];
      GrandTotalFront(p, xs[..|xs| - 1]);
    }
  }

  lemma {:induction false} GrandTotalInsert(p: (string, Order), xs: seq<(string, Order)>)
    ensures GrandTotal(Insert(p, xs)) == p.1.total + GrandTotal(xs)
    decreases |xs|
  {
    GrandTotalFront(p, xs);
    if xs != [] && p.1.createdAt < xs[0].1.createdAt {
      GrandTotalInsert(p, xs[1..]);
      GrandTotalFront(xs[0], Insert(p, xs[1..]));
      GrandTotalFront(xs[0], xs[1..]);
      assert [xs[0]] + xs[1..] == xs;
    }
  }

  /** Sorting the page does not change its grand total. */
  lemma {:induction false} SortKeepsTotal(xs: seq<(string, Order)>)
    ensures GrandTotal(NewestFirstSort(xs)) == GrandTotal(xs)
    decreases |xs|
  {
    if xs != [] {
      SortKeepsTotal(xs[1..]);
      GrandTotalInsert(xs[0], NewestFirstSort(xs[1..]));
      GrandTotalFront(xs[0], xs[1..]);
      assert [xs[0]] + xs[1..] == xs;
    }
  }

  /** An order whose total is the sum of its lines, as every stored order is. */
  predicate Consistent(o: Order) {
    o.total == SumSubtotals(o.items)
  }

  /**
   * The bill's sum of line subtotals equals the my-orders sum of order
   * totals, for orders whose totals match their lines.
   */
  lemma {:induction false} BillMatchesOrders(xs: seq<(string, Order)>)
    requires forall i :: 0 <= i < |xs| ==> Consistent(xs[i].1)
    ensures SumSubtotals(AllItems(xs)) == GrandTotal(xs)
    decreases |xs|
  {
    if xs != [] {
      var init := xs[..|xs| - 1];
      BillMatchesOrders(init);
      SumSubtotalsAppend(AllItems(init), xs[|xs| - 1].1.items);
    }
  }
}
