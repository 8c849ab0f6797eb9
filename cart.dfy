/**
 * The shopping cart of the shop's web pages (`app/static/main.js`): a dictionary from batch id to
 * the chosen flowers, kept in the browser, and the handlers that rewrite the quantity fields.
 * A field's text and its `min`/`max` attributes are strings; JavaScript's `parseInt` reads them.
 */
module Cart {
  import opened Wrappers
  import opened Records
  import Keys
  import Text

  /** One cart entry: what was chosen from a batch, and how many of it exist. */
  datatype CartEntry = CartEntry(name: string, price: real, quantity: int, maxQuantity: int)

  function Max(a: int, b: int): int {
    if a < b then b else a
  }

  /** `Math.max(1, Math.min(q, max))`: the quantity `updateCartQuantity` stores. */
  function Clamp(q: int, max: int): (r: int)
    ensures r >= 1
    ensures max >= 1 ==> r <= max
    ensures max < 1 ==> r == 1
    ensures 1 <= q <= max ==> r == q
    ensures q > max && max >= 1 ==> r == max
    ensures q < 1 ==> r == 1
  {
    var lower := if q < max then q else max;
    if lower < 1 then 1 else lower
  }

  /** Clamping a clamped quantity changes nothing. */
  lemma ClampIdempotent(q: int, max: int)
    ensures Clamp(Clamp(q, max), max) == Clamp(q, max)
  {
  }

  /** The order request the cart page sends: one line per cart key, in key order, with the cart quantity. */
  function Payload(entries: map<int, CartEntry>, comment: string): OrderCreate {
    var ids := Keys.Ascending(entries.Keys);
    AscendingInKeys(entries);
    OrderCreate(Some(comment), LinesOf(ids, entries))
  }

  lemma AscendingInKeys(entries: map<int, CartEntry>)
    ensures var ids := Keys.Ascending(entries.Keys);
      forall i :: 0 <= i < |ids| ==> ids[i] in entries
  {
    var ids := Keys.Ascending(entries.Keys);
    forall i | 0 <= i < |ids| ensures ids[i] in entries {
      assert ids[i] in ids;
    }
  }

  /**
   * The request carries the comment and exactly one line per cart key, in increasing key order,
   * each with that key as the batch id and the cart quantity.
   */
  lemma PayloadLines(entries: map<int, CartEntry>, comment: string)
    ensures var r := Payload(entries, comment);
      && r.comment == Some(comment)
      && |r.lines| == |entries|
      && (forall i :: 0 <= i < |r.lines| ==>
            r.lines[i].batchId in entries && r.lines[i].quantity == entries[r.lines[i].batchId].quantity)
      && (forall i, j :: 0 <= i < j < |r.lines| ==> r.lines[i].batchId < r.lines[j].batchId)
      && (forall id :: id in entries ==> OrderLine(id, entries[id].quantity) in r.lines)
  {
    var ids := Keys.Ascending(entries.Keys);
    AscendingInKeys(entries);
    var lines := LinesOf(ids, entries);
    assert Payload(entries, comment) == OrderCreate(Some(comment), lines);
    assert |entries.Keys| == |entries|;
    LinesOfIncreasing(ids, entries);
    LinesOfCover(ids, entries);
    forall id | id in entries ensures OrderLine(id, entries[id].quantity) in lines {
      assert id in entries.Keys;
    }
  }

  /** One line per id, in the order of `ids`, with the cart quantity. */
  function LinesOf(ids: seq<int>, entries: map<int, CartEntry>): (r: seq<OrderLine>)
    requires forall i :: 0 <= i < |ids| ==> ids[i] in entries
    ensures |r| == |ids|
    ensures forall i :: 0 <= i < |r| ==> r[i] == OrderLine(ids[i], entries[ids[i]].quantity)
  {
    if ids == [] then [] else [OrderLine(ids[0], entries[ids[0]].quantity)] + LinesOf(ids[1..], entries)
  }

  lemma LinesOfIncreasing(ids: seq<int>, entries: map<int, CartEntry>)
    requires forall i :: 0 <= i < |ids| ==> ids[i] in entries
    requires Keys.Increasing(ids)
    ensures var r := LinesOf(ids, entries);
      && (forall i :: 0 <= i < |r| ==> r[i].batchId in entries && r[i].quantity == entries[r[i].batchId].quantity)
      && (forall i, j :: 0 <= i < j < |r| ==> r[i].batchId < r[j].batchId)
  {
  }

  lemma LinesOfCover(ids: seq<int>, entries: map<int, CartEntry>)
    requires forall i :: 0 <= i < |ids| ==> ids[i] in entries
    ensures forall id :: id in ids ==> OrderLine(id, entries[id].quantity) in LinesOf(ids, entries)
  {
    var lines := LinesOf(ids, entries);
    forall id | id in ids ensures OrderLine(id, entries[id].quantity) in lines {
      var i :| 0 <= i < |ids| && ids[i] == id;
      assert lines[i] == OrderLine(id, entries[id].quantity);
    }
  }

  /** The count shown in the navigation bar: the number of cart keys. */
  function NavCount(entries: map<int, CartEntry>): nat {
    |entries.Keys|
  }

  /** The request has exactly as many lines as the navigation bar counts entries, each id once. */
  lemma PayloadMatchesNav(entries: map<int, CartEntry>, comment: string)
    ensures |Payload(entries, comment).lines| == NavCount(entries)
    ensures var lines := Payload(entries, comment).lines;
      forall i, j :: 0 <= i < |lines| && 0 <= j < |lines| && lines[i].batchId == lines[j].batchId ==> i == j
  {
    PayloadLines(entries, comment);
    assert |entries.Keys| == |entries|;
  }

  /** `parseInt(min) || 1`: a missing, unreadable or zero `min` counts as 1. */
  function MinOf(minAttr: string): (n: int)
    ensures n != 0
    ensures Text.ParseInt(minAttr).Some? && Text.ParseInt(minAttr).value != 0 ==> n == Text.ParseInt(minAttr).value
    ensures Text.ParseInt(minAttr).None? || Text.ParseInt(minAttr).value == 0 ==> n == 1
  {
    match Text.ParseInt(minAttr)
    case Some(v) => if v != 0 then v else 1
    case None => 1
  }

  /**
   * The `change` handler's rewrite of a field: an unreadable value or one below `min` becomes
   * `min`, one above a readable `max` becomes `max`, and anything else is kept as typed.
   */
  function ChangeValue(value: string, minAttr: string, maxAttr: string): (r: string)
  {
    var min := MinOf(minAttr);
    var v := Text.ParseInt(value);
    var max := Text.ParseInt(maxAttr);
    if v.None? || v.value < min then Text.ShowInt(min)
    else if max.Some? && v.value > max.value then Text.ShowInt(max.value)
    else value
  }

  /**
   * The rewritten field always reads as a number: `min` for an unreadable value or one below `min`,
   * `max` for one above a readable `max`. When `max` is unreadable or not below `min`, that number
   * lies between `min` and `max`, and a value already in that range is kept as typed.
   */
  lemma ChangeValueBounds(value: string, minAttr: string, maxAttr: string)
    ensures Text.ParseInt(ChangeValue(value, minAttr, maxAttr)).Some?
    ensures var v := Text.ParseInt(value);
      v.None? || v.value < MinOf(minAttr) ==>
        Text.ParseInt(ChangeValue(value, minAttr, maxAttr)) == Some(MinOf(minAttr))
    ensures var v := Text.ParseInt(value);
      var max := Text.ParseInt(maxAttr);
      v.Some? && v.value >= MinOf(minAttr) && max.Some? && v.value > max.value ==>
        Text.ParseInt(ChangeValue(value, minAttr, maxAttr)) == Some(max.value)
    ensures var n := Text.ParseInt(ChangeValue(value, minAttr, maxAttr)).value;
      var max := Text.ParseInt(maxAttr);
      (max.None? || MinOf(minAttr) <= max.value) ==>
        && n >= MinOf(minAttr)
        && (max.Some? ==> n <= max.value)
    ensures var v := Text.ParseInt(value);
      var max := Text.ParseInt(maxAttr);
      v.Some? && v.value >= MinOf(minAttr) && (max.None? || v.value <= max.value) ==>
        ChangeValue(value, minAttr, maxAttr) == value
  {
    Text.ParseShowInt(MinOf(minAttr));
    if Text.ParseInt(maxAttr).Some? {
      Text.ParseShowInt(Text.ParseInt(maxAttr).value);
    }
  }

  /** With consistent bounds, a second `change` leaves the field as the first one left it. */
  lemma ChangeValueIdempotent(value: string, minAttr: string, maxAttr: string)
    requires Text.ParseInt(maxAttr).None? || MinOf(minAttr) <= Text.ParseInt(maxAttr).value
    ensures ChangeValue(ChangeValue(value, minAttr, maxAttr), minAttr, maxAttr) == ChangeValue(value, minAttr, maxAttr)
  {
    ChangeValueBounds(value, minAttr, maxAttr);
    ChangeValueBounds(ChangeValue(value, minAttr, maxAttr), minAttr, maxAttr);
  }

  /**
   * A `+`/`-` button: the field takes `value + change` only when both read as numbers and the sum
   * is at least `min` (read without a default); otherwise it stays as it is. The handler calls
   * `parseInt` without a radix, which would read a leading "0x" as hexadecimal; the strings it
   * reads here never start that way (the field holds only digits, as the input handler and the
   * `change` rewrite leave it, and the button data and `min` are decimal literals), so they are read
   * in base 10.
   */
  function StepValue(value: string, change: string, minAttr: string): (r: string)
  {
    var current := Text.ParseInt(value);
    var delta := Text.ParseInt(change);
    var min := Text.ParseInt(minAttr);
    if current.Some? && delta.Some? && min.Some? && current.value + delta.value >= min.value then
      Text.ShowInt(current.value + delta.value)
    else value
  }

  /** The button moves the field by exactly `change` when the result stays at or above `min`, and not at all otherwise. */
  lemma StepValueMoves(value: string, change: string, minAttr: string)
    ensures var current := Text.ParseInt(value);
      var delta := Text.ParseInt(change);
      var min := Text.ParseInt(minAttr);
      if current.Some? && delta.Some? && min.Some? && current.value + delta.value >= min.value then
        Text.ParseInt(StepValue(value, change, minAttr)) == Some(current.value + delta.value)
      else
        StepValue(value, change, minAttr) == value
  {
    var current := Text.ParseInt(value);
    var delta := Text.ParseInt(change);
    var min := Text.ParseInt(minAttr);
    if current.Some? && delta.Some? && min.Some? && current.value + delta.value >= min.value {
      assert StepValue(value, change, minAttr) == Text.ShowInt(current.value + delta.value);
      Text.ParseShowInt(current.value + delta.value);
    } else {
      assert StepValue(value, change, minAttr) == value;
    }
  }

  /** An entry never holds more than its batch had, unless that was under 1 and the clamp raised it to 1. */
  predicate EntryWithinStock(e: CartEntry) {
    e.quantity <= Max(e.maxQuantity, 1)
  }

  /** The cart as the browser's storage holds it, keyed by batch id. */
  class ShoppingCart {
    var entries: map<int, CartEntry>

    ghost predicate Valid()
      reads this
    {
      forall id :: id in entries ==> EntryWithinStock(entries[id])
    }

    constructor ()
      ensures Valid() && entries == map[]
    {
      entries := map[];
    }

    /**
     * The add-to-cart button: the chosen amount is added to what the cart already holds for the
     * batch; if the sum exceeds what the batch has, the cart is left as it was.
     */
    method AddToCart(id: int, name: string, price: real, chosen: int, maxQuantity: int) returns (added: bool)
      requires Valid()
      modifies this
      ensures Valid()
      ensures var newQty := (if id in old(entries) then old(entries)[id].quantity else 0) + chosen;
        && (added <==> newQty <= maxQuantity)
        && (added ==> entries == old(entries)[id := CartEntry(name, price, newQty, maxQuantity)])
        && (!added ==> entries == old(entries))
    {
      var existing := if id in entries then entries[id].quantity else 0;
      var newQty := existing + chosen;
      if newQty > maxQuantity {
        return false;
      }
      entries := entries[id := CartEntry(name, price, newQty, maxQuantity)];
      added := true;
    }

    /** `updateCartQuantity`: nothing for an id not in the cart; otherwise the clamped quantity is stored. */
    method UpdateQuantity(id: int, q: int)
      requires Valid()
      modifies this
      ensures Valid()
      ensures id !in old(entries) ==> entries == old(entries)
      ensures id in old(entries) ==>
        entries == old(entries)[id := old(entries)[id].(quantity := Clamp(q, old(entries)[id].maxQuantity))]
    {
      if id in entries {
        var e := entries[id];
        entries := entries[id := e.(quantity := Clamp(q, e.maxQuantity))];
      }
    }

    /** The remove button: deletes that id only. */
    method Remove(id: int)
      requires Valid()
      modifies this
      ensures Valid()
      ensures entries == old(entries) - {id}
    {
      entries := entries - {id};
    }

    /**
     * The `input` handler: the field keeps only its digits; on the cart page a field that then
     * reads as a number updates the cart at once.
     */
    method OnInput(id: int, value: string, onCartPage: bool) returns (shown: string)
      requires Valid()
      modifies this
      ensures Valid()
      ensures shown == Text.KeepDigits(value)
      ensures !onCartPage || shown == [] || id !in old(entries) ==> entries == old(entries)
      ensures onCartPage && shown != [] && id in old(entries) ==>
        entries == old(entries)[id := old(entries)[id].(quantity := Clamp(Text.DigitsValue(shown), old(entries)[id].maxQuantity))]
    {
      shown := Text.KeepDigits(value);
      if onCartPage {
        Text.ParseIntOfDigits(shown);
        var q := Text.ParseInt(shown);
        if q.Some? {
          UpdateQuantity(id, q.value);
        }
      }
    }

    /**
     * The `change` handler: the field is rewritten by `ChangeValue`; on the cart page the cart is
     * then updated with the number the field now reads as, which always exists.
     */
    method OnChange(id: int, value: string, minAttr: string, maxAttr: string, onCartPage: bool) returns (shown: string)
      requires Valid()
      modifies this
      ensures Valid()
      ensures shown == ChangeValue(value, minAttr, maxAttr) && Text.ParseInt(shown).Some?
      ensures !onCartPage || id !in old(entries) ==> entries == old(entries)
      ensures onCartPage && id in old(entries) ==>
        entries == old(entries)[id := old(entries)[id].(quantity := Clamp(Text.ParseInt(shown).value, old(entries)[id].maxQuantity))]
    {
      shown := ChangeValue(value, minAttr, maxAttr);
      ChangeValueBounds(value, minAttr, maxAttr);
      if onCartPage {
        var q := Text.ParseInt(shown);
        UpdateQuantity(id, q.value);
      }
    }
  }
}
