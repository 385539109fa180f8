// frontend/screens/Shop.tsx: the store screen. Items bought with gems are
// bought on click when the player can afford them; the subscription and the
// gem packs, bought with real money, go through the payment sheet, whose
// confirmation schedules the purchase two seconds later. The purchase itself
// (`onBuyItem`) belongs to the app and is `Game.BuyItem`.

module Shop {
  import opened Types
  import opened Text
  import opened Constants

  // ---------------------------------------------------------------- categories

  /** `items.filter(p)`. */
  function Select(items: seq<ShopItem>, p: ShopItem -> bool): seq<ShopItem> {
    if items == [] then [] else (if p(items[0]) then [items[0]] else []) + Select(items[1..], p)
  }

  /** The filter keeps exactly the items that pass, in their order. */
  lemma {:induction false} SelectSpec(items: seq<ShopItem>, p: ShopItem -> bool)
    decreases |items|
    ensures IsSubsequence(Select(items, p), items)
    ensures forall x :: x in Select(items, p) <==> x in items && p(x)
  {
    if items != [] {
      SelectSpec(items[1..], p);
      var rest := Select(items[1..], p);
      assert items == [items[0]] + items[1..];
      if p(items[0]) {
        assert ([items[0]] + rest)[1..] == rest;
      } else {
        assert [] + rest == rest;
        if rest != [] {
          assert IsSubsequence(rest, items[1..]);
        }
      }
    }
  }

  /** `items.find(p)`. */
  function FindFirst(items: seq<ShopItem>, p: ShopItem -> bool): Option<ShopItem> {
    if items == [] then None else if p(items[0]) then Some(items[0]) else FindFirst(items[1..], p)
  }

  /** `find` returns the first item that passes, or nothing when none does. */
  lemma {:induction false} FindFirstSpec(items: seq<ShopItem>, p: ShopItem -> bool)
    decreases |items|
    ensures FindFirst(items, p).None? <==> forall x :: x in items ==> !p(x)
    ensures FindFirst(items, p).Some? ==>
      exists k :: 0 <= k < |items| && items[k] == FindFirst(items, p).value && p(items[k]) &&
        forall j :: 0 <= j < k ==> !p(items[j])
  {
    if items != [] {
      FindFirstSpec(items[1..], p);
      assert items == [items[0]] + items[1..];
      if !p(items[0]) && FindFirst(items[1..], p).Some? {
        var k :| 0 <= k < |items[1..]| && items[1..][k] == FindFirst(items[1..], p).value && p(items[1..][k]) &&
          forall j :: 0 <= j < k ==> !p(items[1..][j]);
        assert items[k + 1] == items[1..][k];
        forall j | 0 <= j < k + 1 ensures !p(items[j]) {
          if j > 0 {
            assert items[j] == items[1..][j - 1];
          }
        }
      }
    }
  }

  function PowerUps(): seq<ShopItem> {
    Select(ShopItems, (i: ShopItem) => i.id in ["skip_question", "quest_reset"])
  }

  function Utilities(): seq<ShopItem> {
    Select(ShopItems, (i: ShopItem) => i.id in ["refill_hearts", "streak_freeze"])
  }

  function GemPacks(): seq<ShopItem> {
    Select(ShopItems, (i: ShopItem) => i.kind == CurrencyPack)
  }

  function Premium(): Option<ShopItem> {
    FindFirst(ShopItems, (i: ShopItem) => i.id == "premium_sub")
  }

  /** Against the catalogue: the power-up section is empty, the utilities are the
      heart refill and the streak freeze, the gem packs are the two packs, and the
      subscription is found. */
  lemma Categories()
    ensures PowerUps() == []
    ensures Utilities() == [ShopItems[0], ShopItems[1]]
    ensures GemPacks() == [ShopItems[3], ShopItems[4]]
    ensures Premium() == Some(ShopItems[2]) && Premium().value.kind == Subscription
  {
  }

  // ---------------------------------------------------------------- clicks

  /** What a click on an item does. */
  datatype ClickOutcome =
    | Ignored        // the subscription, for a premium player
    | OpenPayment    // a real-money item: the payment sheet opens
    | NotEnoughGems  // the "Gemas insuficientes!" alert
    | Purchased      // `onBuyItem` on the spot

  /** The branches of `handleClickItem`. */
  function ClickOutcomeOf(item: ShopItem, gems: int, isPremium: bool): ClickOutcome {
    if item.kind == Subscription && isPremium then Ignored
    else if item.kind == CurrencyPack || item.kind == Subscription then OpenPayment
    else if gems < item.cost then NotEnoughGems
    else Purchased
  }

  /** Only an affordable gem item is bought on click, and only real-money items
      that are still useful open the payment sheet. */
  lemma ClickOutcomeSpec(item: ShopItem, gems: int, isPremium: bool)
    ensures ClickOutcomeOf(item, gems, isPremium) == Purchased <==> item.kind == Consumable && gems >= item.cost
    ensures ClickOutcomeOf(item, gems, isPremium) == OpenPayment <==>
      item.kind != Consumable && !(item.kind == Subscription && isPremium)
    ensures ClickOutcomeOf(item, gems, isPremium) == NotEnoughGems <==> item.kind == Consumable && gems < item.cost
  {
  }

  /** A purchase on click never takes the gem balance below zero. */
  lemma ClickPurchaseAffordable(item: ShopItem, gems: int, isPremium: bool)
    requires gems >= 0 && item in ShopItems
    requires ClickOutcomeOf(item, gems, isPremium) == Purchased
    ensures 0 <= gems - item.cost < gems
  {
  }

  /** The text of the success overlay. A pack with no gem amount prints
      JavaScript's `undefined`. */
  function SuccessMessage(item: ShopItem): (r: string)
    ensures item.kind == CurrencyPack && item.gemAmount.Some? ==>
      r == "Você recebeu " + IntToString(item.gemAmount.value) + " gemas!"
    ensures item.kind == CurrencyPack && item.gemAmount.None? ==> r == "Você recebeu undefined gemas!"
    ensures item.kind != CurrencyPack ==> r == item.name + " adquirido!"
  {
    if item.kind == CurrencyPack then
      "Você recebeu " + (if item.gemAmount.Some? then IntToString(item.gemAmount.value) else "undefined") + " gemas!"
    else item.name + " adquirido!"
  }

  /** Two packs announced by the same message give the same number of gems. */
  lemma PackMessageNamesGems(a: ShopItem, b: ShopItem)
    requires a.kind == CurrencyPack && a.gemAmount.Some?
    requires b.kind == CurrencyPack && b.gemAmount.Some?
    requires SuccessMessage(a) == SuccessMessage(b)
    ensures a.gemAmount == b.gemAmount
  {
    var prefix, suffix := "Você recebeu ", " gemas!";
    var m := SuccessMessage(a);
    assert m[|prefix|..|m| - |suffix|] == IntToString(a.gemAmount.value);
    assert m[|prefix|..|m| - |suffix|] == IntToString(b.gemAmount.value);
    IntValueOfIntToString(a.gemAmount.value);
    IntValueOfIntToString(b.gemAmount.value);
  }

  /** A pack's message is never an item's: one ends in "gemas!", the other in
      "adquirido!". */
  lemma PackMessageNotItemMessage(pack: ShopItem, item: ShopItem)
    requires pack.kind == CurrencyPack && item.kind != CurrencyPack
    ensures SuccessMessage(pack) != SuccessMessage(item)
  {
    var p, q := SuccessMessage(pack), SuccessMessage(item);
    assert p[|p| - 2] == 's';
    assert q[|q| - 2] == 'o';
  }

  /** Every pack of the catalogue announces its gem amount, never `undefined`. */
  lemma CataloguePacksAnnounceGems(item: ShopItem)
    requires item in ShopItems && item.kind == CurrencyPack
    ensures item.gemAmount.Some? && item.gemAmount.value > 0
    ensures SuccessMessage(item) == "Você recebeu " + IntToString(item.gemAmount.value) + " gemas!"
  {
  }

  /** The screen's state. `scheduled` holds the purchases the payment timer will
      make, oldest first: each is the item shown in the sheet when it was confirmed. */
  class ShopScreen {
    var selectedItem: Option<ShopItem>
    var paymentItem: Option<ShopItem>
    var processingPayment: bool
    var scheduled: seq<ShopItem>

    /** Only real-money items reach the payment sheet and its timer, and a
        payment in progress has a purchase waiting. */
    ghost predicate Valid()
      reads this
    {
      && (paymentItem.Some? ==> paymentItem.value.kind != Consumable)
      && (forall k :: 0 <= k < |scheduled| ==> scheduled[k].kind != Consumable)
      && (processingPayment ==> scheduled != [])
    }

    constructor ()
      ensures Valid()
      ensures selectedItem.None? && paymentItem.None? && !processingPayment && scheduled == []
    {
      selectedItem := None;
      paymentItem := None;
      processingPayment := false;
      scheduled := [];
    }

    /** `handleClickItem`: the caller runs `onBuyItem(item)` on `Purchased`. */
    method ClickItem(item: ShopItem, gems: int, isPremium: bool) returns (outcome: ClickOutcome)
      requires Valid()
      modifies this
      ensures Valid()
      ensures outcome == ClickOutcomeOf(item, gems, isPremium)
      ensures outcome == Purchased ==> selectedItem == Some(item)
      ensures outcome != Purchased ==> selectedItem == old(selectedItem)
      ensures outcome == OpenPayment ==> paymentItem == Some(item)
      ensures outcome != OpenPayment ==> paymentItem == old(paymentItem)
      ensures processingPayment == old(processingPayment) && scheduled == old(scheduled)
    {
      if item.kind == Subscription && isPremium {
        return Ignored;
      }
      if item.kind == CurrencyPack {
        paymentItem := Some(item);
        outcome := OpenPayment;
      } else if item.kind == Subscription {
        paymentItem := Some(item);
        outcome := OpenPayment;
      } else {
        if gems < item.cost {
          return NotEnoughGems;
        }
        selectedItem := Some(item);
        outcome := Purchased;
      }
    }

    /** `handlePaymentConfirm`: nothing without an item in the sheet; otherwise the
        payment is in progress and the item's purchase is scheduled. */
    method ConfirmPayment()
      requires Valid()
      modifies this
      ensures Valid()
      ensures old(paymentItem).None? ==> processingPayment == old(processingPayment) && scheduled == old(scheduled)
      ensures old(paymentItem).Some? ==> processingPayment && scheduled == old(scheduled) + [old(paymentItem).value]
      ensures paymentItem == old(paymentItem) && selectedItem == old(selectedItem)
    {
      if paymentItem.None? {
        return;
      }
      processingPayment := true;
      scheduled := scheduled + [paymentItem.value];
    }

    /** The payment timer fires: the oldest scheduled item is bought (the caller
        runs `onBuyItem` on it), the sheet closes and the success overlay shows it. */
    method PaymentTimer() returns (bought: ShopItem)
      requires Valid() && scheduled != []
      modifies this
      ensures Valid()
      ensures bought == old(scheduled[0]) && bought.kind != Consumable
      ensures scheduled == old(scheduled[1..])
      ensures paymentItem.None? && !processingPayment && selectedItem == Some(bought)
    {
      bought := scheduled[0];
      scheduled := scheduled[1..];
      paymentItem := None;
      processingPayment := false;
      selectedItem := Some(bought);
    }

    /** The sheet's close button: the sheet goes, a scheduled purchase stays. */
    method ClosePayment()
      requires Valid()
      modifies this
      ensures Valid()
      ensures paymentItem.None?
      ensures selectedItem == old(selectedItem) && processingPayment == old(processingPayment)
      ensures scheduled == old(scheduled)
    {
      paymentItem := None;
    }

    /** The success timer fires and the overlay goes. */
    method SuccessTimer()
      requires Valid()
      modifies this
      ensures Valid() && selectedItem.None?
      ensures paymentItem == old(paymentItem) && processingPayment == old(processingPayment)
      ensures scheduled == old(scheduled)
    {
      selectedItem := None;
    }
  }
}
