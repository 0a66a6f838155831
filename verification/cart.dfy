/** The cart slice: an ordered sequence of line items, the four reducers
    that change it and the two selectors that read it. Prices are integers
    (the store's price arithmetic is done on JavaScript numbers). */
module CartSlice {
  import opened Wrappers

  type Id = string

  /** One cart line: the dispatched product's fields plus its quantity.
      `details` carries the presentation-only fields (image, size, colour)
      that no reducer reads. */
  datatype Line = Line(id: Id, title: string, price: int, quantity: int, details: map<string, string>)

  datatype CartState = CartState(items: seq<Line>)

  const InitialState: CartState := CartState([])

  datatype Action =
    | Add(product: Line)
    | Remove(id: Id)
    | Increase(id: Id)
    | Decrease(id: Id)

  // ---------------------------------------------------------------------
  // Views of a line sequence used to state what the reducers do

  predicate HasId(items: seq<Line>, id: Id) {
    exists k :: 0 <= k < |items| && items[k].id == id
  }

  /** The ids of the lines, in cart order. */
  function Ids(items: seq<Line>): seq<Id> {
    seq(|items|, k requires 0 <= k < |items| => items[k].id)
  }

  /** The lines carrying `id`, in cart order. */
  function Only(items: seq<Line>, id: Id): seq<Line>
    decreases |items|
  {
    if items == [] then []
    else (if items[0].id == id then [items[0]] else []) + Only(items[1..], id)
  }

  /** The total quantity held under `id`. */
  function QuantityOf(items: seq<Line>, id: Id): int
    decreases |items|
  {
    if items == [] then 0
    else (if items[0].id == id then items[0].quantity else 0) + QuantityOf(items[1..], id)
  }

  /** The total price: the sum of price times quantity over every line. */
  function Total(items: seq<Line>): int
    decreases |items|
  {
    if items == [] then 0 else items[0].price * items[0].quantity + Total(items[1..])
  }

  predicate DistinctIds(items: seq<Line>) {
    forall j, k :: 0 <= j < k < |items| ==> items[j].id != items[k].id
  }

  predicate PositiveQuantities(items: seq<Line>) {
    forall k :: 0 <= k < |items| ==> items[k].quantity >= 1
  }

  /** The cart invariant: at most one line per id, every quantity at least 1. */
  predicate Valid(s: CartState) {
    DistinctIds(s.items) && PositiveQuantities(s.items)
  }

  // ---------------------------------------------------------------------
  // The two array primitives the reducers use

  /** `items.find(i => i.id === id)`, as the position of the first line
      carrying `id`. */
  function Find(items: seq<Line>, id: Id): (r: Option<nat>)
    ensures r.Some? ==> r.value < |items| && items[r.value].id == id
    ensures r.Some? ==> forall k :: 0 <= k < r.value ==> items[k].id != id
    ensures r.None? <==> !HasId(items, id)
    decreases |items|
  {
    if items == [] then None
    else if items[0].id == id then Some(0)
    else
      match Find(items[1..], id)
      case None =>
        assert forall k :: 1 <= k < |items| ==> items[k] == items[1..][k - 1];
        None
      case Some(k) => Some(k + 1)
  }

  /** `items.filter(i => i.id !== id)`. */
  function Without(items: seq<Line>, id: Id): (r: seq<Line>)
    ensures forall l :: l in r <==> l in items && l.id != id
    ensures !HasId(r, id)
    ensures !HasId(items, id) ==> r == items
    decreases |items|
  {
    if items == [] then []
    else if items[0].id == id then Without(items[1..], id)
    else
      assert !HasId(items, id) ==> !HasId(items[1..], id) by {
        if HasId(items[1..], id) {
          var k :| 0 <= k < |items[1..]| && items[1..][k].id == id;
          assert items[k + 1].id == id;
        }
      }
      [items[0]] + Without(items[1..], id)
  }

  /** The line at `i` after its quantity has been moved by `delta`. */
  function Bump(items: seq<Line>, i: nat, delta: int): seq<Line>
    requires i < |items|
  {
    items[i := items[i].(quantity := items[i].quantity + delta)]
  }

  // ---------------------------------------------------------------------
  // The reducers

  /** `addItem`: a product already in the cart gains one unit on its line;
      a new product is appended with quantity 1, whatever quantity the
      payload carried. Lines of other products are untouched. */
  function AddItem(s: CartState, product: Line): (t: CartState)
    ensures Ids(t.items) == if HasId(s.items, product.id) then Ids(s.items) else Ids(s.items) + [product.id]
    ensures !HasId(s.items, product.id) ==> t.items == s.items + [product.(quantity := 1)]
    ensures QuantityOf(t.items, product.id) == QuantityOf(s.items, product.id) + 1
    ensures forall other :: other != product.id ==> Only(t.items, other) == Only(s.items, other)
    ensures Valid(s) ==> Valid(t)
  {
    match Find(s.items, product.id)
    case Some(i) =>
      BumpKeepsOthers(s.items, i, 1);
      CartState(Bump(s.items, i, 1))
    case None =>
      var added := product.(quantity := 1);
      AppendLine(s.items, added);
      CartState(s.items + [added])
  }

  /** `removeItem`: every line carrying `id` is dropped; the lines of every
      other product keep their order; an absent id changes nothing. */
  function RemoveItem(s: CartState, id: Id): (t: CartState)
    ensures !HasId(t.items, id)
    ensures forall other :: other != id ==> Only(t.items, other) == Only(s.items, other)
    ensures !HasId(s.items, id) ==> t == s
    ensures Valid(s) ==> Valid(t)
  {
    WithoutKeepsOthers(s.items, id);
    WithoutKeepsDistinct(s.items, id);
    CartState(Without(s.items, id))
  }

  /** `increaseQuantity`: one more unit on the product's line; an absent id
      changes nothing. */
  function IncreaseQuantity(s: CartState, id: Id): (t: CartState)
    ensures Ids(t.items) == Ids(s.items)
    ensures QuantityOf(t.items, id) == QuantityOf(s.items, id) + (if HasId(s.items, id) then 1 else 0)
    ensures forall other :: other != id ==> Only(t.items, other) == Only(s.items, other)
    ensures !HasId(s.items, id) ==> t == s
    ensures Valid(s) ==> Valid(t)
  {
    match Find(s.items, id)
    case Some(i) =>
      BumpKeepsOthers(s.items, i, 1);
      CartState(Bump(s.items, i, 1))
    case None => s
  }

  /** `decreaseQuantity`: a line holding more than one unit loses one; a line
      holding one unit (or fewer) is removed together with every other line
      of that product; an absent id changes nothing. */
  function DecreaseQuantity(s: CartState, id: Id): (t: CartState)
    ensures (var f := Find(s.items, id); f.Some? && s.items[f.value].quantity > 1 ==>
              Ids(t.items) == Ids(s.items) && QuantityOf(t.items, id) == QuantityOf(s.items, id) - 1)
    ensures (var f := Find(s.items, id); f.Some? && s.items[f.value].quantity <= 1 ==>
              !HasId(t.items, id))
    ensures forall other :: other != id ==> Only(t.items, other) == Only(s.items, other)
    ensures !HasId(s.items, id) ==> t == s
    ensures Valid(s) ==> Valid(t)
  {
    match Find(s.items, id)
    case Some(i) =>
      if s.items[i].quantity > 1 then
        BumpKeepsOthers(s.items, i, -1);
        CartState(Bump(s.items, i, -1))
      else
        RemoveItem(s, id)
    case None => RemoveItem(s, id)
  }

  /** The store's reducer: one dispatched action. */
  function Reduce(s: CartState, a: Action): (t: CartState)
    ensures Valid(s) ==> Valid(t)
  {
    match a
    case Add(product) => AddItem(s, product)
    case Remove(id) => RemoveItem(s, id)
    case Increase(id) => IncreaseQuantity(s, id)
    case Decrease(id) => DecreaseQuantity(s, id)
  }

  /** Actions dispatched in order. Every cart reachable from a valid cart
      (in particular from the empty initial cart) is valid. */
  function Run(s: CartState, actions: seq<Action>): (t: CartState)
    ensures Valid(s) ==> Valid(t)
    decreases |actions|
  {
    if actions == [] then s else Run(Reduce(s, actions[0]), actions[1..])
  }

  // ---------------------------------------------------------------------
  // The selectors

  /** `selectItems`: the cart's own lines, in order, so the list a view
      receives carries the cart invariant. */
  function SelectItems(s: CartState): (r: seq<Line>)
    ensures |r| == |s.items| && forall k :: 0 <= k < |r| ==> r[k] == s.items[k]
    ensures Valid(s) ==> DistinctIds(r) && PositiveQuantities(r)
  {
    s.items
  }

  /** `selectTotalPrice`: the running `reduce` from 0 over the lines. */
  method SelectTotalPrice(s: CartState) returns (total: int)
    ensures total == Total(SelectItems(s))
    ensures s.items == [] ==> total == 0
  {
    total := 0;
    var k := 0;
    while k < |s.items|
      invariant 0 <= k <= |s.items|
      invariant total == Total(s.items[..k])
    {
      TotalAppend(s.items[..k], [s.items[k]]);
      assert s.items[..k + 1] == s.items[..k] + [s.items[k]];
      total := total + s.items[k].price * s.items[k].quantity;
      k := k + 1;
    }
    assert s.items[..k] == s.items;
  }

  // ---------------------------------------------------------------------
  // Lemmas the reducers' contracts rest on

  /** Concatenation splits both views of a product: its lines and its quantity. */
  lemma OnlyAppend(a: seq<Line>, b: seq<Line>, id: Id)
    ensures Only(a + b, id) == Only(a, id) + Only(b, id)
    ensures QuantityOf(a + b, id) == QuantityOf(a, id) + QuantityOf(b, id)
  {
    OnlyLinesAppend(a, b, id);
    QuantityAppend(a, b, id);
  }

  lemma {:induction false} OnlyLinesAppend(a: seq<Line>, b: seq<Line>, id: Id)
    ensures Only(a + b, id) == Only(a, id) + Only(b, id)
    decreases |a|
  {
    if a == [] {
      assert a + b == b;
    } else {
      assert (a + b)[0] == a[0];
      assert (a + b)[1..] == a[1..] + b;
      OnlyLinesAppend(a[1..], b, id);
    }
  }

  lemma {:induction false} QuantityAppend(a: seq<Line>, b: seq<Line>, id: Id)
    ensures QuantityOf(a + b, id) == QuantityOf(a, id) + QuantityOf(b, id)
    decreases |a|
  {
    if a == [] {
      assert a + b == b;
    } else {
      assert (a + b)[0] == a[0];
      assert (a + b)[1..] == a[1..] + b;
      QuantityAppend(a[1..], b, id);
    }
  }

  /** Appending a line with a new id keeps every other product's lines and
      the cart invariant, and puts its quantity under its id. */
  lemma AppendLine(items: seq<Line>, l: Line)
    requires !HasId(items, l.id)
    ensures Ids(items + [l]) == Ids(items) + [l.id]
    ensures forall other :: other != l.id ==> Only(items + [l], other) == Only(items, other)
    ensures QuantityOf(items + [l], l.id) == QuantityOf(items, l.id) + l.quantity
    ensures DistinctIds(items) ==> DistinctIds(items + [l])
    ensures PositiveQuantities(items) && l.quantity >= 1 ==> PositiveQuantities(items + [l])
  {
    assert [l][1..] == [];
    forall other | other != l.id
      ensures Only(items + [l], other) == Only(items, other)
    {
      OnlyAppend(items, [l], other);
    }
    OnlyAppend(items, [l], l.id);
  }

  lemma {:induction false} BumpQuantity(items: seq<Line>, i: nat, delta: int)
    requires i < |items|
    ensures QuantityOf(Bump(items, i, delta), items[i].id) == QuantityOf(items, items[i].id) + delta
    decreases |items|
  {
    if i > 0 {
      assert Bump(items, i, delta)[1..] == Bump(items[1..], i - 1, delta);
      BumpQuantity(items[1..], i - 1, delta);
    } else {
      assert Bump(items, i, delta)[1..] == items[1..];
    }
  }

  lemma {:induction false} BumpOnly(items: seq<Line>, i: nat, delta: int, other: Id)
    requires i < |items| && other != items[i].id
    ensures Only(Bump(items, i, delta), other) == Only(items, other)
    decreases |items|
  {
    if i > 0 {
      assert Bump(items, i, delta)[1..] == Bump(items[1..], i - 1, delta);
      BumpOnly(items[1..], i - 1, delta, other);
    } else {
      assert Bump(items, i, delta)[1..] == items[1..];
    }
  }

  /** Moving one line's quantity keeps the ids in place, moves that
      product's quantity by `delta`, and keeps every other product's lines. */
  lemma BumpKeepsOthers(items: seq<Line>, i: nat, delta: int)
    requires i < |items|
    ensures Ids(Bump(items, i, delta)) == Ids(items)
    ensures QuantityOf(Bump(items, i, delta), items[i].id) == QuantityOf(items, items[i].id) + delta
    ensures forall other :: other != items[i].id ==> Only(Bump(items, i, delta), other) == Only(items, other)
    ensures DistinctIds(items) ==> DistinctIds(Bump(items, i, delta))
    ensures PositiveQuantities(items) && items[i].quantity + delta >= 1 ==> PositiveQuantities(Bump(items, i, delta))
  {
    BumpQuantity(items, i, delta);
    forall other | other != items[i].id
      ensures Only(Bump(items, i, delta), other) == Only(items, other)
    {
      BumpOnly(items, i, delta, other);
    }
  }

  lemma {:induction false} WithoutOnly(items: seq<Line>, id: Id, other: Id)
    requires other != id
    ensures Only(Without(items, id), other) == Only(items, other)
    decreases |items|
  {
    if items != [] {
      WithoutOnly(items[1..], id, other);
      if items[0].id != id {
        assert ([items[0]] + Without(items[1..], id))[1..] == Without(items[1..], id);
      }
    }
  }

  lemma WithoutKeepsOthers(items: seq<Line>, id: Id)
    ensures forall other :: other != id ==> Only(Without(items, id), other) == Only(items, other)
  {
    forall other | other != id
      ensures Only(Without(items, id), other) == Only(items, other)
    {
      WithoutOnly(items, id, other);
    }
  }

  /** Filtering keeps the cart invariant. */
  lemma WithoutKeepsDistinct(items: seq<Line>, id: Id)
    ensures DistinctIds(items) ==> DistinctIds(Without(items, id))
    ensures PositiveQuantities(items) ==> PositiveQuantities(Without(items, id))
  {
    if DistinctIds(items) {
      WithoutDistinct(items, id);
    }
    if PositiveQuantities(items) {
      var r := Without(items, id);
      forall k | 0 <= k < |r|
        ensures r[k].quantity >= 1
      {
        assert r[k] in r;
      }
    }
  }

  lemma {:induction false} WithoutDistinct(items: seq<Line>, id: Id)
    requires DistinctIds(items)
    ensures DistinctIds(Without(items, id))
    decreases |items|
  {
    if items != [] {
      var tail := items[1..];
      assert DistinctIds(tail) by {
        forall j, k | 0 <= j < k < |tail|
          ensures tail[j].id != tail[k].id
        {
          assert tail[j] == items[j + 1] && tail[k] == items[k + 1];
        }
      }
      WithoutDistinct(tail, id);
      if items[0].id != id {
        var rest := Without(tail, id);
        assert Without(items, id) == [items[0]] + rest;
        NoIdBeforeOrAfter(items, 0);
        forall k | 0 <= k < |rest|
          ensures rest[k].id != items[0].id
        {
          MemberHasId(tail, rest[k]);
        }
      }
    }
  }

  lemma {:induction false} TotalAppend(a: seq<Line>, b: seq<Line>)
    ensures Total(a + b) == Total(a) + Total(b)
    decreases |a|
  {
    if a == [] {
      assert a + b == b;
    } else {
      assert (a + b)[1..] == a[1..] + b;
      TotalAppend(a[1..], b);
    }
  }

  /** Splitting the cart around position `i`. */
  lemma TotalSplit(items: seq<Line>, i: nat)
    requires i < |items|
    ensures Total(items) == Total(items[..i]) + items[i].price * items[i].quantity + Total(items[i + 1..])
  {
    assert items == items[..i] + ([items[i]] + items[i + 1..]);
    TotalAppend(items[..i], [items[i]] + items[i + 1..]);
    TotalAppend([items[i]], items[i + 1..]);
    assert ([items[i]] + items[i + 1..])[1..] == items[i + 1..];
  }

  lemma Distribute(p: int, q: int, d: int)
    ensures p * (q + d) == p * q + p * d
  {
  }

  /** The total of a bumped cart, split around the bumped line. */
  lemma TotalBumpSplit(items: seq<Line>, i: nat, delta: int)
    requires i < |items|
    ensures Total(Bump(items, i, delta))
         == Total(items[..i]) + items[i].price * (items[i].quantity + delta) + Total(items[i + 1..])
  {
    var b := Bump(items, i, delta);
    assert b[..i] == items[..i];
    assert b[i + 1..] == items[i + 1..];
    TotalSplit(b, i);
  }

  lemma TotalBump(items: seq<Line>, i: nat, delta: int)
    requires i < |items|
    ensures Total(Bump(items, i, delta)) == Total(items) + items[i].price * delta
  {
    var p, q := items[i].price, items[i].quantity;
    TotalSplit(items, i);
    TotalBumpSplit(items, i, delta);
    Distribute(p, q, delta);
  }

  /** With distinct ids, `Find` locates the one line carrying the id. */
  lemma FindUnique(items: seq<Line>, i: nat)
    requires DistinctIds(items) && i < |items|
    ensures Find(items, items[i].id) == Some(i)
  {
    var f := Find(items, items[i].id);
    assert HasId(items, items[i].id);
  }

  lemma MemberHasId(items: seq<Line>, l: Line)
    requires l in items
    ensures HasId(items, l.id)
  {
    var j :| 0 <= j < |items| && items[j] == l;
    assert items[j].id == l.id;
  }

  lemma NoIdBeforeOrAfter(items: seq<Line>, i: nat)
    requires DistinctIds(items) && i < |items|
    ensures !HasId(items[..i], items[i].id) && !HasId(items[i + 1..], items[i].id)
  {
    assert forall k :: 0 <= k < i ==> items[..i][k].id != items[i].id;
    var rest := items[i + 1..];
    forall k | 0 <= k < |rest|
      ensures rest[k].id != items[i].id
    {
      assert rest[k] == items[i + 1 + k];
    }
  }

  /** `filter` keeps every line with another id as often as it occurs and
      drops every line with the id. */
  lemma {:induction false} WithoutCounts(items: seq<Line>, id: Id)
    ensures forall l :: multiset(Without(items, id))[l] == (if l.id == id then 0 else multiset(items)[l])
    decreases |items|
  {
    if items != [] {
      WithoutCounts(items[1..], id);
      assert items == [items[0]] + items[1..];
      assert multiset(items) == multiset([items[0]]) + multiset(items[1..]);
      if items[0].id != id {
        assert multiset(Without(items, id)) == multiset([items[0]]) + multiset(Without(items[1..], id));
      }
    }
  }

  /** `filter` on one line keeps it exactly when its id differs. Together
      with `WithoutAppend` this fixes `Without` on every sequence: the
      kept lines stay in their order. */
  lemma WithoutOne(l: Line, id: Id)
    ensures Without([l], id) == (if l.id == id then [] else [l])
  {
    assert [l][1..] == [];
  }

  /** `filter` distributes over concatenation, so the kept lines keep
      their relative order. */
  lemma {:induction false} WithoutAppend(a: seq<Line>, b: seq<Line>, id: Id)
    ensures Without(a + b, id) == Without(a, id) + Without(b, id)
    decreases |a|
  {
    if a == [] {
      assert a + b == b;
    } else {
      assert (a + b)[1..] == a[1..] + b;
      WithoutAppend(a[1..], b, id);
    }
  }

  // ---------------------------------------------------------------------
  // What the reducers do on a valid cart, position by position

  /** Adding a product whose id is on line `i` adds one to that line and
      changes no other line or position. */
  lemma AddExistingLine(s: CartState, product: Line, i: nat)
    requires DistinctIds(s.items) && i < |s.items| && s.items[i].id == product.id
    ensures AddItem(s, product).items == s.items[i := s.items[i].(quantity := s.items[i].quantity + 1)]
  {
    FindUnique(s.items, i);
  }

  /** Removing the product on line `i` of a cart with distinct ids drops
      exactly that line and keeps the rest in order. */
  lemma RemoveUniqueLine(s: CartState, i: nat)
    requires DistinctIds(s.items) && i < |s.items|
    ensures RemoveItem(s, s.items[i].id).items == s.items[..i] + s.items[i + 1..]
  {
    var items := s.items;
    var id := items[i].id;
    NoIdBeforeOrAfter(items, i);
    assert items == items[..i] + ([items[i]] + items[i + 1..]);
    WithoutAppend(items[..i], [items[i]] + items[i + 1..], id);
    WithoutAppend([items[i]], items[i + 1..], id);
    assert ([items[i]] + items[i + 1..])[1..] == items[i + 1..];
  }

  /** Increasing the product on line `i` adds one to that line only. */
  lemma IncreaseUniqueLine(s: CartState, i: nat)
    requires DistinctIds(s.items) && i < |s.items|
    ensures IncreaseQuantity(s, s.items[i].id).items == s.items[i := s.items[i].(quantity := s.items[i].quantity + 1)]
  {
    FindUnique(s.items, i);
  }

  /** Decreasing the product on line `i`: one unit fewer when it holds more
      than one, otherwise the line goes and the rest keep their order. */
  lemma DecreaseUniqueLine(s: CartState, i: nat)
    requires DistinctIds(s.items) && i < |s.items|
    ensures s.items[i].quantity > 1 ==>
      DecreaseQuantity(s, s.items[i].id).items == s.items[i := s.items[i].(quantity := s.items[i].quantity - 1)]
    ensures s.items[i].quantity <= 1 ==>
      DecreaseQuantity(s, s.items[i].id).items == s.items[..i] + s.items[i + 1..]
  {
    FindUnique(s.items, i);
    if s.items[i].quantity <= 1 {
      RemoveUniqueLine(s, i);
    }
  }

  // ---------------------------------------------------------------------
  // The total price under each reducer

  /** Adding a product raises the total by one unit of its price — the
      price already on the cart line when the product is present. */
  lemma TotalAfterAdd(s: CartState, product: Line)
    ensures Total(AddItem(s, product).items) == Total(s.items) +
      (match Find(s.items, product.id) case Some(i) => s.items[i].price case None => product.price)
  {
    match Find(s.items, product.id)
    case Some(i) =>
      TotalBump(s.items, i, 1);
    case None =>
      TotalAppend(s.items, [product.(quantity := 1)]);
      assert [product.(quantity := 1)][1..] == [];
  }

  /** On a valid cart, decreasing a present product lowers the total by one
      unit of its price (whether its line shrinks or goes). */
  lemma TotalAfterDecrease(s: CartState, i: nat)
    requires Valid(s) && i < |s.items|
    ensures Total(DecreaseQuantity(s, s.items[i].id).items) == Total(s.items) - s.items[i].price
  {
    FindUnique(s.items, i);
    if s.items[i].quantity > 1 {
      TotalBump(s.items, i, -1);
    } else {
      assert s.items[i].quantity == 1;
      RemoveUniqueLine(s, i);
      TotalSplit(s.items, i);
      TotalAppend(s.items[..i], s.items[i + 1..]);
    }
  }

  /** On a cart with distinct ids, removing the product on line `i` lowers
      the total by that line's price times quantity. */
  lemma TotalAfterRemove(s: CartState, i: nat)
    requires DistinctIds(s.items) && i < |s.items|
    ensures Total(RemoveItem(s, s.items[i].id).items) == Total(s.items) - s.items[i].price * s.items[i].quantity
  {
    RemoveUniqueLine(s, i);
    TotalSplit(s.items, i);
    TotalAppend(s.items[..i], s.items[i + 1..]);
  }

  // ---------------------------------------------------------------------
  // Sequences of actions

  lemma {:induction false} RunAppend(s: CartState, a: seq<Action>, b: seq<Action>)
    ensures Run(s, a + b) == Run(Run(s, a), b)
    decreases |a|
  {
    if a == [] {
      assert a + b == b;
    } else {
      assert (a + b)[1..] == a[1..] + b;
      RunAppend(Reduce(s, a[0]), a[1..], b);
    }
  }

  /** `n` copies of one action. */
  function Repeat(a: Action, n: nat): (r: seq<Action>)
    ensures |r| == n
  {
    if n == 0 then [] else Repeat(a, n - 1) + [a]
  }

  /** Adding the same product `n` times to the empty cart gives one line for
      it, holding `n` units. */
  lemma {:induction false} AddRepeatedly(product: Line, n: nat)
    requires n >= 1
    ensures Run(InitialState, Repeat(Add(product), n)).items == [product.(quantity := n)]
  {
    if n == 1 {
      assert Repeat(Add(product), 1) == [Add(product)];
    } else {
      AddRepeatedly(product, n - 1);
      RunAppend(InitialState, Repeat(Add(product), n - 1), [Add(product)]);
      var before := Run(InitialState, Repeat(Add(product), n - 1));
      assert Find(before.items, product.id) == Some(0);
      assert [Add(product)][1..] == [];
    }
  }

  /** The worked example: add A (price 10) twice, then decrease it twice. */
  lemma AddTwiceThenDecreaseTwice()
    ensures var a := Line("A", "", 10, 0, map[]);
      var s1 := Run(InitialState, [Add(a), Add(a)]);
      var s2 := DecreaseQuantity(s1, "A");
      var s3 := DecreaseQuantity(s2, "A");
      && s1.items == [a.(quantity := 2)] && Total(s1.items) == 20
      && s2.items == [a.(quantity := 1)] && Total(s2.items) == 10
      && s3.items == [] && Total(s3.items) == 0
  {
    var a := Line("A", "", 10, 0, map[]);
    AddRepeatedly(a, 2);
    assert Repeat(Add(a), 2) == [Add(a), Add(a)];
    var s1 := Run(InitialState, [Add(a), Add(a)]);
    assert Find(s1.items, "A") == Some(0);
    var s2 := DecreaseQuantity(s1, "A");
    assert s2.items == [a.(quantity := 1)];
    assert Find(s2.items, "A") == Some(0);
    RemoveUniqueLine(s2, 0);
  }
}
