/**
 * The inventory page's cost-price editing: a map of per-item draft strings
 * (`editingCostPrices`) and the list of items, updated by the start, change,
 * cancel and save handlers. The PATCH reply is an input of the save handler.
 */
module InventoryEditing {
  import opened Text
  import opened Optional
  import opened Display
  import opened InventorySearch

  /**
   * `/^\d*\.?\d*$/`: only digits and dots, and at most one dot. Either side
   * of a dot is a digit string, and a draft without a dot is one.
   */
  predicate IsDecimalDraft(s: string)
    ensures IsDecimalDraft(s) ==>
      forall k :: 0 <= k < |s| && s[k] == '.' ==> AllDigits(s[..k]) && AllDigits(s[k + 1..])
    ensures IsDecimalDraft(s) && (forall k :: 0 <= k < |s| ==> s[k] != '.') ==> AllDigits(s)
  {
    var ok :=
      && (forall i :: 0 <= i < |s| ==> IsDigit(s[i]) || s[i] == '.')
      && (forall i, j :: 0 <= i < j < |s| && s[i] == '.' ==> s[j] != '.');
    if ok then DotSides(s); ok else ok
  }

  /** In a string of digits and at most one dot, only digits surround the dot. */
  lemma DotSides(s: string)
    requires forall i :: 0 <= i < |s| ==> IsDigit(s[i]) || s[i] == '.'
    requires forall i, j :: 0 <= i < j < |s| && s[i] == '.' ==> s[j] != '.'
    ensures forall k :: 0 <= k < |s| && s[k] == '.' ==> AllDigits(s[..k]) && AllDigits(s[k + 1..])
  {
    forall k | 0 <= k < |s| && s[k] == '.' ensures AllDigits(s[..k]) && AllDigits(s[k + 1..]) {
      assert forall i :: 0 <= i < k ==> s[..k][i] == s[i];
      var after := s[k + 1..];
      assert forall i :: 0 <= i < |after| ==> after[i] == s[k + 1 + i];
    }
  }

  /** The strings `\d*\.?\d*` describes: digits, an optional dot, digits. */
  function DraftShape(before: string, dot: bool, after: string): string {
    if dot then before + "." + after else before + after
  }

  /** The predicate accepts exactly the strings the regular expression describes. */
  lemma DecimalDraftIff(s: string)
    ensures IsDecimalDraft(s) <==>
      exists before, dot, after :: AllDigits(before) && AllDigits(after) && s == DraftShape(before, dot, after)
  {
    if IsDecimalDraft(s) {
      if k :| 0 <= k < |s| && s[k] == '.' {
        var before, after := s[..k], s[k + 1..];
        assert forall i :: 0 <= i < k ==> before[i] == s[i];
        assert forall i :: 0 <= i < |after| ==> after[i] == s[k + 1 + i];
        assert s == DraftShape(before, true, after);
      } else {
        assert s == DraftShape(s, false, []);
      }
    }
    if exists before, dot, after :: AllDigits(before) && AllDigits(after) && s == DraftShape(before, dot, after) {
      var before, dot, after :| AllDigits(before) && AllDigits(after) && s == DraftShape(before, dot, after);
      ShapeIsDecimal(before, dot, after);
    }
  }

  lemma ShapeIsDecimal(before: string, dot: bool, after: string)
    requires AllDigits(before) && AllDigits(after)
    ensures IsDecimalDraft(DraftShape(before, dot, after))
  {
    var s := DraftShape(before, dot, after);
    var n := |before|;
    assert forall i :: 0 <= i < n ==> s[i] == before[i];
    assert dot ==> s[n] == '.' && forall i :: n < i < |s| ==> s[i] == after[i - n - 1];
    assert !dot ==> forall i :: n <= i < |s| ==> s[i] == after[i - n];
  }

  /** Some drafts the field accepts and refuses. */
  lemma DraftExamples()
    ensures IsDecimalDraft("") && IsDecimalDraft(".") && IsDecimalDraft("12.50") && IsDecimalDraft(".5")
    ensures !IsDecimalDraft("1.2.3") && !IsDecimalDraft("-1") && !IsDecimalDraft("1e5")
  {
    assert "1.2.3"[1] == '.' && "1.2.3"[3] == '.';
    assert "-1"[0] == '-';
    assert "1e5"[1] == 'e';
  }

  /** `prev.map(item => item.id === id ? { ...item, cost_price } : item)`. */
  function WithCostPrice(items: seq<Item>, id: int, price: Price): (r: seq<Item>)
    ensures |r| == |items|
  {
    if items == [] then []
    else [if items[0].id == id then items[0].(costPrice := price) else items[0]] + WithCostPrice(items[1..], id, price)
  }

  /**
   * Only the items with that id change, and of them only the cost price; the
   * order and every other item stay as they were.
   */
  lemma {:induction false} WithCostPriceSpec(items: seq<Item>, id: int, price: Price)
    ensures forall i :: 0 <= i < |items| && items[i].id != id ==> WithCostPrice(items, id, price)[i] == items[i]
    ensures forall i :: 0 <= i < |items| && items[i].id == id ==> WithCostPrice(items, id, price)[i] == items[i].(costPrice := price)
    decreases |items|
  {
    if items != [] {
      WithCostPriceSpec(items[1..], id, price);
      var r := WithCostPrice(items, id, price);
      assert forall i :: 1 <= i < |items| ==> r[i] == WithCostPrice(items[1..], id, price)[i - 1] && items[1..][i - 1] == items[i];
    }
  }

  /** Saving with an id no item has changes nothing. */
  lemma {:induction false} WithCostPriceUnknownId(items: seq<Item>, id: int, price: Price)
    requires forall i :: 0 <= i < |items| ==> items[i].id != id
    ensures WithCostPrice(items, id, price) == items
    decreases |items|
  {
    if items != [] {
      WithCostPriceUnknownId(items[1..], id, price);
    }
  }

  /** The reply to `PATCH /api/inventory/{id}/cost_price`. */
  datatype SaveReply =
    | SaveOk
    | SaveRejected(message: Option<string>)   // a non-ok status; the body's `message`, None when absent or empty
    | SaveThrew(description: string)          // the request or the JSON decoding threw

  class InventoryPage {
    var inventory: seq<Item>
    /** `editingCostPrices`: the draft text of every item being edited. */
    var drafts: map<int, string>

    constructor (items: seq<Item>)
      ensures inventory == items && drafts == map[]
    {
      inventory := items;
      drafts := map[];
    }

    /** `hasOwnProperty(item.id)`: whether the row shows an input field. */
    predicate IsEditing(id: int)
      reads this
    {
      id in drafts
    }

    /** `startEditing`: the draft for `id` becomes the price's text; no other draft changes. */
    method StartEditing(id: int, currentPriceText: string)
      modifies this
      ensures drafts == old(drafts)[id := currentPriceText]
      ensures inventory == old(inventory)
    {
      drafts := drafts[id := currentPriceText];
    }

    /** `onCostPriceChange`: a typed value is kept only if it is a decimal draft. */
    method OnCostPriceChange(id: int, value: string)
      modifies this
      ensures drafts == if IsDecimalDraft(value) then old(drafts)[id := value] else old(drafts)
      ensures inventory == old(inventory)
    {
      if IsDecimalDraft(value) {
        drafts := drafts[id := value];
      }
    }

    /** `cancelEditing`: only the draft for `id` is removed. */
    method CancelEditing(id: int)
      modifies this
      ensures drafts == old(drafts) - {id}
      ensures inventory == old(inventory)
    {
      drafts := drafts - {id};
    }

    /**
     * `saveCostPrice`. `request` is the draft sent to the server, if any; a
     * missing or empty draft sends nothing silently, an invalid one sends
     * nothing and reports it. Only an ok reply changes the page: the item's
     * cost price and the removal of its draft.
     */
    method SaveCostPrice(id: int, reply: SaveReply) returns (request: Option<string>, notice: Option<Notice>)
      modifies this
      ensures request.Some? <==> id in old(drafts) && old(drafts)[id] != [] && IsDecimalDraft(old(drafts)[id])
      ensures request.Some? ==> request.value == old(drafts)[id]
      ensures request.Some? && reply.SaveOk? ==>
        && inventory == WithCostPrice(old(inventory), id, Price(request.value))
        && drafts == old(drafts) - {id}
        && notice == Some(Notice("Cost price updated successfully", false))
      ensures request.None? || !reply.SaveOk? ==> inventory == old(inventory) && drafts == old(drafts)
      ensures request.None? ==>
        notice == if id in old(drafts) && old(drafts)[id] != [] then Some(Notice("Invalid cost price entered", true)) else None
      ensures request.Some? && reply.SaveRejected? ==>
        notice == Some(Notice("Error updating cost price: " + reply.message.GetOr("Failed to update cost price"), true))
      ensures request.Some? && reply.SaveThrew? ==>
        notice == Some(Notice("Error updating cost price: " + reply.description, true))
    {
      request, notice := None, None;
      if id !in drafts || drafts[id] == [] {
        return;
      }
      var newPriceText := drafts[id];
      if !IsDecimalDraft(newPriceText) {
        notice := Some(Notice("Invalid cost price entered", true));
        return;
      }
      request := Some(newPriceText);
      match reply {
        case SaveOk =>
          inventory := WithCostPrice(inventory, id, Price(newPriceText));
          notice := Some(Notice("Cost price updated successfully", false));
          drafts := drafts - {id};
        case SaveRejected(message) =>
          notice := Some(Notice("Error updating cost price: " + message.GetOr("Failed to update cost price"), true));
        case SaveThrew(description) =>
          notice := Some(Notice("Error updating cost price: " + description, true));
      }
    }
  }

  /** A scenario: start editing, type a price, save it with an ok reply. */
  method EditAndSave(item: Item, other: Item)
    requires item.id != other.id
  {
    var page := new InventoryPage([item, other]);
    page.StartEditing(item.id, "10");
    page.OnCostPriceChange(item.id, "12.5");
    assert "12.5x"[4] == 'x';
    page.OnCostPriceChange(item.id, "12.5x");
    assert page.drafts[item.id] == "12.5";
    assert IsDecimalDraft("12.5");
    var request, notice := page.SaveCostPrice(item.id, SaveOk);
    assert request == Some("12.5");
    WithCostPriceSpec([item, other], item.id, Price("12.5"));
    assert page.inventory == [item.(costPrice := Price("12.5")), other];
    assert !page.IsEditing(item.id);
  }
}
