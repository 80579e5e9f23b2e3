/**
 * The shopping-cart views: adding a product to the user's cart, updating a
 * cart item's quantity and removing an item. Every user has one cart
 * (`Cart.objects.get_or_create(user=...)`), and a cart holds at most one item
 * per product (`CartItem.objects.get_or_create(cart=..., product=...)`), so a
 * cart is a map from product to its line.
 */
module CartViews {
  import opened Wrappers

  type UserId = int
  type ProductId = int
  type ItemId = int

  /** A `CartItem` row: its id and its quantity. */
  datatype Line = Line(id: ItemId, quantity: int)

  /** What `update_cart_item` reports: `item` (the line `item_total` and `quantity` come from) only when it was kept. */
  datatype UpdateReply = UpdateReply(itemId: ItemId, itemRemoved: bool, item: Option<Line>, message: string)

  const QuantityUpdated := "Cantidad actualizada."
  const ProductRemoved := "Producto eliminado del carrito."

  /** `int(request.POST.get('quantity', 1))`: the posted quantity, 1 when none is posted. */
  function RequestedQuantity(posted: Option<int>): (q: int)
    ensures posted.None? ==> q == 1
    ensures posted.Some? ==> q == posted.value
  {
    posted.GetOr(1)
  }

  /** A cart's quantities after adding `quantity` of `product`. */
  function Added(cart: map<ProductId, int>, product: ProductId, quantity: int): (r: map<ProductId, int>)
    ensures product in r
    ensures product !in cart ==> r[product] == quantity
    ensures product in cart ==> r[product] == cart[product] + quantity
    ensures forall p :: p != product ==> (p in r <==> p in cart)
    ensures forall p :: p != product && p in cart ==> r[p] == cart[p]
  {
    cart[product := if product in cart then cart[product] + quantity else quantity]
  }

  /** A cart's quantities after setting `product` to `quantity`: kept when positive, deleted otherwise. */
  function Updated(cart: map<ProductId, int>, product: ProductId, quantity: int): (r: map<ProductId, int>)
    ensures product in r <==> quantity > 0
    ensures quantity > 0 ==> r[product] == quantity
    ensures forall p :: p != product ==> (p in r <==> p in cart)
    ensures forall p :: p != product && p in cart ==> r[p] == cart[p]
  {
    if quantity > 0 then cart[product := quantity] else cart - {product}
  }

  /** Adding twice is adding the sum. */
  lemma AddedTwice(cart: map<ProductId, int>, product: ProductId, a: int, b: int)
    ensures Added(Added(cart, product, a), product, b) == Added(cart, product, a + b)
  {
  }

  /** Updating to a positive quantity and then adding gives that quantity plus the addition. */
  lemma UpdateThenAdd(cart: map<ProductId, int>, product: ProductId, q: int, a: int)
    requires q > 0
    ensures Added(Updated(cart, product, q), product, a)[product] == q + a
  {
  }

  /** Updating to a non-positive quantity and then adding starts a fresh line. */
  lemma RemoveThenAdd(cart: map<ProductId, int>, product: ProductId, q: int, a: int)
    requires q <= 0
    ensures Added(Updated(cart, product, q), product, a)[product] == a
  {
  }

  /** The product-to-quantity view of a cart. */
  ghost function QuantitiesOf(cart: map<ProductId, Line>): (q: map<ProductId, int>)
    ensures q.Keys == cart.Keys
    ensures forall p :: p in cart ==> q[p] == cart[p].quantity
  {
    map p | p in cart :: cart[p].quantity
  }

  lemma QuantitiesOfSet(cart: map<ProductId, Line>, product: ProductId, line: Line)
    ensures QuantitiesOf(cart[product := line]) == QuantitiesOf(cart)[product := line.quantity]
  {
  }

  lemma QuantitiesOfRemove(cart: map<ProductId, Line>, product: ProductId)
    ensures QuantitiesOf(cart - {product}) == QuantitiesOf(cart) - {product}
  {
  }

  /** `user`'s cart, empty when the user has none yet (`get_or_create`). */
  function CartOf(carts: map<UserId, map<ProductId, Line>>, user: UserId): map<ProductId, Line> {
    if user in carts then carts[user] else map[]
  }

  /** The product-to-quantity view of `user`'s cart (empty when the user has no cart). */
  ghost function UserQuantities(carts: map<UserId, map<ProductId, Line>>, user: UserId): map<ProductId, int> {
    if user in carts then QuantitiesOf(carts[user]) else map[]
  }

  /** Storing the added line changes the user's quantities as `Added` says. */
  lemma AddedQuantities(carts: map<UserId, map<ProductId, Line>>, user: UserId, product: ProductId, line: Line, quantity: int)
    requires user in carts && product in carts[user] ==> line.quantity == carts[user][product].quantity + quantity
    requires !(user in carts && product in carts[user]) ==> line.quantity == quantity
    ensures UserQuantities(carts[user := (if user in carts then carts[user] else map[])[product := line]], user)
            == Added(UserQuantities(carts, user), product, quantity)
  {
    var cart := if user in carts then carts[user] else map[];
    QuantitiesOfSet(cart, product, line);
  }

  /** Storing a line with a positive quantity changes the user's quantities as `Updated` says. */
  lemma UpdatedQuantitiesKept(carts: map<UserId, map<ProductId, Line>>, user: UserId, product: ProductId, line: Line)
    requires user in carts && line.quantity > 0
    ensures UserQuantities(carts[user := carts[user][product := line]], user)
            == Updated(UserQuantities(carts, user), product, line.quantity)
  {
    QuantitiesOfSet(carts[user], product, line);
  }

  /** Deleting the line changes the user's quantities as `Updated` with a non-positive quantity says. */
  lemma UpdatedQuantitiesRemoved(carts: map<UserId, map<ProductId, Line>>, user: UserId, product: ProductId, quantity: int)
    requires user in carts && quantity <= 0
    ensures UserQuantities(carts[user := carts[user] - {product}], user)
            == Updated(UserQuantities(carts, user), product, quantity)
  {
    QuantitiesOfRemove(carts[user], product);
  }

  /** Item ids are below `nextId` and no two lines share one. */
  ghost predicate WellFormed(carts: map<UserId, map<ProductId, Line>>, nextId: ItemId) {
    && (forall u, p :: u in carts && p in carts[u] ==> carts[u][p].id < nextId)
    && (forall u1, p1, u2, p2 ::
          (u1 in carts && p1 in carts[u1] && u2 in carts && p2 in carts[u2] &&
           carts[u1][p1].id == carts[u2][p2].id) ==> u1 == u2 && p1 == p2)
  }

  /** A new line with the next id keeps ids unique. */
  lemma NewLineWellFormed(carts: map<UserId, map<ProductId, Line>>, nextId: ItemId,
                          user: UserId, cart: map<ProductId, Line>, product: ProductId, quantity: int)
    requires WellFormed(carts, nextId)
    requires cart == (if user in carts then carts[user] else map[]) && product !in cart
    ensures WellFormed(carts[user := cart[product := Line(nextId, quantity)]], nextId + 1)
  {
  }

  /** Changing a line's quantity keeps ids unique. */
  lemma SameIdWellFormed(carts: map<UserId, map<ProductId, Line>>, nextId: ItemId,
                         user: UserId, product: ProductId, line: Line)
    requires WellFormed(carts, nextId)
    requires user in carts && product in carts[user] && line.id == carts[user][product].id
    ensures WellFormed(carts[user := carts[user][product := line]], nextId)
  {
  }

  /** Deleting a line keeps ids unique. */
  lemma RemovedWellFormed(carts: map<UserId, map<ProductId, Line>>, nextId: ItemId,
                          user: UserId, product: ProductId)
    requires WellFormed(carts, nextId)
    requires user in carts
    ensures WellFormed(carts[user := carts[user] - {product}], nextId)
  {
  }

  class CartStore {
    /** Each user's cart: product to cart line. */
    var carts: map<UserId, map<ProductId, Line>>
    /** The id the next new cart item gets. */
    var nextId: ItemId

    ghost predicate Valid()
      reads this
    {
      WellFormed(carts, nextId)
    }

    /** The product-to-quantity view of `user`'s cart (empty when the user has no cart). */
    ghost function Quantities(user: UserId): map<ProductId, int>
      reads this
    {
      UserQuantities(carts, user)
    }

    /** The item `itemId` is in `user`'s own cart (`CartItem ... id=item_id, cart__user=request.user`). */
    predicate OwnsItem(user: UserId, itemId: ItemId)
      reads this
    {
      user in carts && exists p | p in carts[user] :: carts[user][p].id == itemId
    }

    constructor ()
      ensures Valid()
      ensures carts == map[] && nextId == 0
    {
      carts := map[];
      nextId := 0;
    }

    /**
     * `add_to_cart`: 404 for an unknown product; otherwise the user's cart is
     * created if needed and the product's line is created with the requested
     * quantity or has it added. No other cart and no other line changes.
     */
    method AddToCart(user: UserId, product: ProductId, products: set<ProductId>, posted: Option<int>)
      returns (r: Lookup<Line>)
      requires Valid()
      modifies this
      ensures Valid()
      ensures r.NotFound? <==> product !in products
      ensures r.NotFound? ==> carts == old(carts) && nextId == old(nextId)
      ensures r.Found? ==> user in carts && product in carts[user] && r.value == carts[user][product]
      ensures r.Found? ==> Quantities(user) == Added(old(Quantities(user)), product, RequestedQuantity(posted))
      ensures r.Found? && user in old(carts) && product in old(carts[user]) ==>
                r.value.id == old(carts[user][product].id)
      ensures r.Found? ==> carts == old(carts)[user := CartOf(old(carts), user)[product := r.value]]
      ensures r.Found? ==> nextId == if product in CartOf(old(carts), user) then old(nextId) else old(nextId) + 1
      ensures r.Found? && product !in CartOf(old(carts), user) ==> r.value.id == old(nextId)
    {
      if product !in products {
        return NotFound;
      }
      var quantity := RequestedQuantity(posted);
      var cart := CartOf(carts, user);
      var line: Line;
      if product !in cart {
        line := Line(nextId, quantity);
        NewLineWellFormed(carts, nextId, user, cart, product, quantity);
        nextId := nextId + 1;
      } else {
        line := cart[product].(quantity := cart[product].quantity + quantity);
        SameIdWellFormed(carts, nextId, user, product, line);
      }
      AddedQuantities(carts, user, product, line, quantity);
      carts := carts[user := cart[product := line]];
      r := Found(line);
    }

    /** `remove_from_cart`: 404 unless the item is in the user's own cart; otherwise that one line is deleted. */
    method RemoveFromCart(user: UserId, itemId: ItemId) returns (r: Lookup<ProductId>)
      requires Valid()
      modifies this
      ensures Valid()
      ensures r.NotFound? <==> !old(OwnsItem(user, itemId))
      ensures r.NotFound? ==> carts == old(carts)
      ensures r.Found? ==> user in old(carts) && r.value in old(carts[user]) && old(carts[user][r.value].id) == itemId
      ensures r.Found? ==> carts == old(carts)[user := old(carts[user]) - {r.value}]
      ensures r.Found? ==> Quantities(user) == old(Quantities(user)) - {r.value}
      ensures nextId == old(nextId)
    {
      if !OwnsItem(user, itemId) {
        return NotFound;
      }
      var p :| p in carts[user] && carts[user][p].id == itemId;
      RemovedWellFormed(carts, nextId, user, p);
      QuantitiesOfRemove(carts[user], p);
      carts := carts[user := carts[user] - {p}];
      r := Found(p);
    }

    /**
     * `update_cart_item`: 404 unless the item is in the user's own cart; a
     * positive quantity replaces the line's quantity, any other deletes the
     * line and reports `item_removed`.
     */
    method UpdateCartItem(user: UserId, itemId: ItemId, posted: Option<int>)
      returns (r: Lookup<UpdateReply>, ghost product: ProductId)
      requires Valid()
      modifies this
      ensures Valid()
      ensures r.NotFound? <==> !old(OwnsItem(user, itemId))
      ensures r.NotFound? ==> carts == old(carts)
      ensures r.Found? ==> user in old(carts) && product in old(carts[user]) && old(carts[user][product].id) == itemId
      ensures r.Found? ==> user in carts
      ensures r.Found? ==> Quantities(user) == Updated(old(Quantities(user)), product, RequestedQuantity(posted))
      ensures r.Found? ==> r.value.itemId == itemId
      ensures r.Found? ==> (r.value.itemRemoved <==> RequestedQuantity(posted) <= 0)
      ensures r.Found? ==> (r.value.item.Some? <==> !r.value.itemRemoved)
      ensures r.Found? && !r.value.itemRemoved ==>
                r.value.item == Some(Line(itemId, RequestedQuantity(posted))) && r.value.message == QuantityUpdated
      ensures r.Found? && r.value.itemRemoved ==> r.value.message == ProductRemoved
      ensures r.Found? && RequestedQuantity(posted) > 0 ==>
                carts == old(carts)[user := old(carts[user])[product := Line(itemId, RequestedQuantity(posted))]]
      ensures r.Found? && RequestedQuantity(posted) <= 0 ==> carts == old(carts)[user := old(carts[user]) - {product}]
      ensures nextId == old(nextId)
    {
      if !OwnsItem(user, itemId) {
        return NotFound, 0;
      }
      var p :| p in carts[user] && carts[user][p].id == itemId;
      product := p;
      var quantity := RequestedQuantity(posted);
      var line := carts[user][p];
      if quantity > 0 {
        line := line.(quantity := quantity);
        SameIdWellFormed(carts, nextId, user, p, line);
        UpdatedQuantitiesKept(carts, user, p, line);
        carts := carts[user := carts[user][p := line]];
        r := Found(UpdateReply(itemId, false, Some(line), QuantityUpdated));
      } else {
        RemovedWellFormed(carts, nextId, user, p);
        UpdatedQuantitiesRemoved(carts, user, p, quantity);
        carts := carts[user := carts[user] - {p}];
        r := Found(UpdateReply(itemId, true, None, ProductRemoved));
      }
    }
  }
}
