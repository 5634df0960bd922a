/**
 * The pending-payment lifecycle: a Buy press records one pending payment,
 * `/confirm` checks the address balance and, when it covers the price,
 * sends the item's file and clears the payment. The payment gateway, the
 * filesystem and the file send are inputs (oracles).
 */
module Payments {
  import opened Wrappers
  import opened Catalog
  import opened Store
  import opened Sessions

  /** What the gateway's new-address call gave: an error, or the `address` field of its reply. */
  datatype AddressReply = GatewayError | Issued(address: Option<string>)

  /** The `1e-12` tolerance of the balance comparison, as an exact real. */
  const Tolerance: real := 1.0 / 1000000000000.0

  /** The pending payment after a Buy press for `itemKey`. */
  function Recorded(items: map<string, Item>, itemKey: string, reply: AddressReply, prior: Option<Payment>): (p: Option<Payment>)
    ensures p != prior ==> itemKey in items && reply.Issued?
    ensures itemKey in items && reply.Issued? ==>
      p == Some(Payment(itemKey, reply.address, items[itemKey].priceBtc))
  {
    if itemKey !in items then prior
    else match reply
      case GatewayError => prior
      case Issued(address) => Some(Payment(itemKey, address, items[itemKey].priceBtc))
  }

  /** `handle_buy_request`: the payment is recorded only after both the item lookup and the address succeed. */
  method BuyRequest(store: CatalogStore, session: Session, itemKey: string, reply: AddressReply)
    modifies session
    ensures session.pending == Recorded(store.items, itemKey, reply, old(session.pending))
    ensures session.state == old(session.state) && session.buffers == old(session.buffers)
  {
    if itemKey !in store.items {
      return;
    }
    match reply
    case GatewayError =>
    case Issued(address) =>
      session.pending := Some(Payment(itemKey, address, store.items[itemKey].priceBtc));
  }

  /** How a `/confirm` ends. */
  datatype Outcome = NoPending | CheckFailed | Shortfall | ItemMissing | FileMissing | SendFailed | Delivered

  /**
   * The `/confirm` decision, in the handler's order of checks. `balance` is
   * the gateway's confirmed balance (`None` when the check raised), `files`
   * the paths that exist, and `sent` whether the file send succeeded.
   */
  function Settle(pending: Option<Payment>, items: map<string, Item>, balance: Option<real>,
                  files: set<string>, sent: bool): Outcome
  {
    match pending
    case None => NoPending
    case Some(p) =>
      match balance
      case None => CheckFailed
      case Some(received) =>
        if received < p.amount - Tolerance then Shortfall
        else if p.itemKey !in items then ItemMissing
        else
          var path := items[p.itemKey].filePath;
          if path == "" || path !in files then FileMissing
          else if !sent then SendFailed
          else Delivered
  }

  /** The pending payment once a `/confirm` has ended with `outcome`: cleared on delivery and on nothing else. */
  function PendingAfter(pending: Option<Payment>, outcome: Outcome): (r: Option<Payment>)
    ensures r.None? <==> pending.None? || outcome == Delivered
    ensures r.Some? ==> r == pending
  {
    if outcome == Delivered then None else pending
  }

  /** `cmd_confirm`: settles the pending payment and clears it on delivery. */
  method Confirm(store: CatalogStore, session: Session, balance: Option<real>, files: set<string>, sent: bool)
    returns (outcome: Outcome)
    modifies session
    ensures outcome == Settle(old(session.pending), store.items, balance, files, sent)
    ensures session.pending == PendingAfter(old(session.pending), outcome)
    ensures session.state == old(session.state) && session.buffers == old(session.buffers)
  {
    outcome := Settle(session.pending, store.items, balance, files, sent);
    if outcome == Delivered {
      session.pending := None;
    }
  }

  /**
   * A delivery happens exactly when there is a pending payment, the balance
   * reached the recorded amount less the tolerance, the item still exists,
   * its file exists and the send succeeded.
   */
  lemma DeliveredExactly(pending: Option<Payment>, items: map<string, Item>, balance: Option<real>,
                         files: set<string>, sent: bool)
    ensures Settle(pending, items, balance, files, sent) == Delivered <==>
      && pending.Some? && balance.Some?
      && balance.value >= pending.value.amount - Tolerance
      && pending.value.itemKey in items
      && items[pending.value.itemKey].filePath != ""
      && items[pending.value.itemKey].filePath in files
      && sent
  {
  }

  /** A balance short of the recorded amount by more than the tolerance never delivers, and the payment stays pending. */
  lemma ShortfallKeepsPending(p: Payment, items: map<string, Item>, received: real, files: set<string>, sent: bool)
    requires received < p.amount - Tolerance
    ensures Settle(Some(p), items, Some(received), files, sent) == Shortfall
    ensures PendingAfter(Some(p), Settle(Some(p), items, Some(received), files, sent)) == Some(p)
  {
  }

  /**
   * Buying and paying the price completes: after a successful Buy press, a
   * balance equal to the item's price, with the file present and sent,
   * delivers it.
   */
  lemma PurchaseCompletes(items: map<string, Item>, itemKey: string, address: Option<string>,
                          prior: Option<Payment>, files: set<string>)
    requires itemKey in items && items[itemKey].filePath != "" && items[itemKey].filePath in files
    ensures var p := Recorded(items, itemKey, Issued(address), prior);
      Settle(p, items, Some(items[itemKey].priceBtc), files, true) == Delivered
  {
  }

  /**
   * The amount owed is the price when the Buy was pressed: whatever price
   * the item is given afterwards, `/confirm` settles exactly as it would
   * have under the old price, and paying the old price delivers.
   */
  lemma AmountFixedAtBuy(items: map<string, Item>, itemKey: string, address: Option<string>,
                         prior: Option<Payment>, newPrice: real, balance: Option<real>,
                         files: set<string>, sent: bool)
    requires itemKey in items
    ensures var p := Recorded(items, itemKey, Issued(address), prior);
      var later := items[itemKey := items[itemKey].(priceBtc := newPrice)];
      && p.Some? && p.value.amount == items[itemKey].priceBtc
      && Settle(p, later, balance, files, sent) == Settle(p, items, balance, files, sent)
      && (items[itemKey].filePath != "" && items[itemKey].filePath in files ==>
            Settle(p, later, Some(items[itemKey].priceBtc), files, true) == Delivered)
  {
  }

  /**
   * After a delivery no payment is pending, so the next `/confirm`, whatever
   * the catalog, balance, files and send then are, delivers nothing.
   */
  lemma NoSecondDelivery(pending: Option<Payment>, items: map<string, Item>, balance: Option<real>,
                         files: set<string>, sent: bool,
                         items2: map<string, Item>, balance2: Option<real>, files2: set<string>, sent2: bool)
    requires Settle(pending, items, balance, files, sent) == Delivered
    ensures Settle(PendingAfter(pending, Settle(pending, items, balance, files, sent)),
                   items2, balance2, files2, sent2) == NoPending
  {
  }
}
