/** Listings and the single-copy items (internal/domain/item.go). */
module Items {
  import opened Domain

  /** `Unknown` stands for every string that names no rarity. */
  datatype Rarity = Common | Rare | Legendary | Unknown

  datatype ItemStatus = Available | SoldOut | InAuction

  /** An item as the store keeps it. */
  datatype ItemRow = ItemRow(id: Id, rarity: Rarity, seller: Id, price: Gold, quantity: int,
                             status: ItemStatus, createdAt: Time)
  {
    function SellTo(buyer: Id, qty: int): Result<Sale> {
      if qty < 1 then Err(InvalidQuantity)
      else if rarity.Legendary? then Err(LegendaryNotLimit)
      else if seller == buyer then Err(CannotBuyOwnItem)
      else if !status.Available? then Err(ItemNotAvailable)
      else if qty > quantity then Err(InsufficientStock)
      else
        var left := quantity - qty;
        Ok(Sale(this.(quantity := left, status := if left == 0 then SoldOut else Available), price * qty))
    }
  }

  /** An item after a sale, and what the sale costs the buyer. */
  datatype Sale = Sale(item: ItemRow, cost: Gold)

  function NewItem(id: Id, rarity: Rarity, seller: Id, price: Gold, quantity: int, now: Time): Result<ItemRow> {
    if rarity.Unknown? then Err(InvalidRarity)
    else if rarity.Legendary? then Ok(ItemRow(id, rarity, seller, 0, 1, Available, now))
    else if price <= 0 then Err(NonPositiveAmount)
    else if quantity < 1 then Err(InvalidQuantity)
    else Ok(ItemRow(id, rarity, seller, price, quantity, Available, now))
  }

  /** An item in memory: the copy that a unit of work changes and writes back. */
  class Item {
    const id: Id
    const rarity: Rarity
    const seller: Id
    const price: Gold
    var quantity: int
    var status: ItemStatus
    const createdAt: Time

    constructor (row: ItemRow)
      ensures Row() == row
    {
      id, rarity, seller, price := row.id, row.rarity, row.seller, row.price;
      quantity, status, createdAt := row.quantity, row.status, row.createdAt;
    }

    function Row(): ItemRow
      reads this
    {
      ItemRow(id, rarity, seller, price, quantity, status, createdAt)
    }

    method SellTo(buyer: Id, qty: int) returns (cost: Gold, err: Option<Error>)
      modifies this
      ensures
        var sale := old(Row().SellTo(buyer, qty));
        && err == sale.Failure()
        && Row() == (if sale.Ok? then sale.value.item else old(Row()))
        && cost == if sale.Ok? then sale.value.cost else 0
      ensures err ==
        if qty < 1 then Some(InvalidQuantity)
        else if rarity.Legendary? then Some(LegendaryNotLimit)
        else if seller == buyer then Some(CannotBuyOwnItem)
        else if old(status) != Available then Some(ItemNotAvailable)
        else if qty > old(quantity) then Some(InsufficientStock)
        else None
      ensures err.None? ==> cost == price * qty && quantity == old(quantity) - qty
      ensures err.None? ==> status == if old(quantity) == qty then SoldOut else Available
      ensures err.Some? ==> cost == 0 && quantity == old(quantity) && status == old(status)
    {
      if qty < 1 {
        return 0, Some(InvalidQuantity);
      }
      if rarity.Legendary? {
        return 0, Some(LegendaryNotLimit);
      }
      if seller == buyer {
        return 0, Some(CannotBuyOwnItem);
      }
      if status != Available {
        return 0, Some(ItemNotAvailable);
      }
      if qty > quantity {
        return 0, Some(InsufficientStock);
      }
      cost := price * qty;
      quantity := quantity - qty;
      if quantity == 0 {
        status := SoldOut;
      }
      return cost, None;
    }
  }
}
