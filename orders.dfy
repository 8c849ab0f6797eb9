/**
 * `create_order` in `app/crud.py`: the lines of a request are handled one after the other against
 * the batches as the earlier lines left them; the first line whose batch is missing or short of
 * stock aborts the whole order and nothing is kept, otherwise every batch is reduced and the order
 * gets one item per line with the batch's price copied in.
 */
module Orders {
  import opened Wrappers
  import opened Records
  import opened Stock
  import Text

  /** Why an order was refused. */
  datatype OrderError =
    | BatchNotFound(batchId: int)
    | NotEnough(name: string, available: int, requested: int)

  /** The outcome of handling all lines: the new table of batches and the items, or the first error. */
  datatype Outcome =
    | Placed(batches: map<int, Batch>, items: seq<OrderItem>)
    | Failed(error: OrderError)

  /** The text `create_order` returns for an error; the endpoint sends it back as the detail of a 400. */
  function Message(e: OrderError): string {
    match e
    case BatchNotFound(id) => "Товар с ID " + Text.ShowInt(id) + " не найден."
    case NotEnough(name, available, requested) =>
      "Недостаточно товара '" + name + "'. В наличии: " + Text.ShowInt(available)
      + ", запрошено: " + Text.ShowInt(requested) + "."
  }

  /** The table after the stock of one line, whose check passed, has been taken out. */
  function Take(m: map<int, Batch>, l: OrderLine, now: Time): map<int, Batch>
    requires l.batchId in m
  {
    m[l.batchId := Decrement(m[l.batchId], l.quantity, now)]
  }

  function Prepend(items: seq<OrderItem>, o: Outcome): Outcome {
    match o
    case Placed(b, rest) => Placed(b, items + rest)
    case Failed(_) => o
  }

  /**
   * The lines handled in request order, as the loop of `create_order` does, on `m`, the batches as
   * the earlier lines left them in the session. `stored` is the table as the database holds it: the
   * session is rolled back before the "not enough" message is written, which expires the loaded
   * batch, so the stock the message shows is read again from the database and is the stored stock,
   * not the reduced stock the check compared.
   */
  function Place(stored: map<int, Batch>, m: map<int, Batch>, lines: seq<OrderLine>, now: Time): Outcome
    requires m.Keys == stored.Keys
    decreases |lines|
  {
    if lines == [] then Placed(m, [])
    else
      var l := lines[0];
      if l.batchId !in m then Failed(BatchNotFound(l.batchId))
      else if m[l.batchId].quantity < l.quantity then
        Failed(NotEnough(stored[l.batchId].name, stored[l.batchId].quantity, l.quantity))
      else
        Prepend([OrderItem(l.batchId, l.quantity, m[l.batchId].price)], Place(stored, Take(m, l, now), lines[1..], now))
  }

  // ---------------------------------------------------------------------------------------------
  // An independent description of the same outcome, line by line.
  // ---------------------------------------------------------------------------------------------

  /** How many flowers of batch `id` the lines ask for in total. */
  function Requested(lines: seq<OrderLine>, id: int): int {
    if lines == [] then 0
    else (if lines[0].batchId == id then lines[0].quantity else 0) + Requested(lines[1..], id)
  }

  /** The batches the lines name. */
  function Ids(lines: seq<OrderLine>): set<int> {
    set l | l in lines :: l.batchId
  }

  /** The stock of batch `id` that a line sees after the lines before it took theirs. */
  function StockSeen(m: map<int, Batch>, before: seq<OrderLine>, id: int): int
    requires id in m
  {
    m[id].quantity - Requested(before, id)
  }

  /** Line `i` finds its batch, and enough of it. */
  predicate LinePasses(m: map<int, Batch>, lines: seq<OrderLine>, i: int)
    requires 0 <= i < |lines|
  {
    lines[i].batchId in m && StockSeen(m, lines[..i], lines[i].batchId) >= lines[i].quantity
  }

  /** The error reported for line `i` when it does not pass: the stored row's name and stock. */
  function LineError(stored: map<int, Batch>, lines: seq<OrderLine>, i: int): OrderError
    requires 0 <= i < |lines|
  {
    var id := lines[i].batchId;
    if id !in stored then BatchNotFound(id)
    else NotEnough(stored[id].name, stored[id].quantity, lines[i].quantity)
  }

  lemma RequestedSplit(lines: seq<OrderLine>, j: int, id: int)
    requires 0 <= j < |lines|
    ensures Requested(lines[..j + 1], id)
         == (if lines[0].batchId == id then lines[0].quantity else 0) + Requested(lines[1..][..j], id)
  {
    assert lines[..j + 1][1..] == lines[1..][..j];
  }

  /** After the first line has been taken, line `j` of the rest sees what line `j + 1` of the whole request sees. */
  lemma ShiftLine(m: map<int, Batch>, lines: seq<OrderLine>, now: Time, j: int)
    requires 0 <= j < |lines| - 1 && lines[0].batchId in m
    ensures LinePasses(Take(m, lines[0], now), lines[1..], j) <==> LinePasses(m, lines, j + 1)
  {
    var id := lines[j + 1].batchId;
    assert lines[1..][j] == lines[j + 1];
    if id in m {
      RequestedSplit(lines, j, id);
    }
  }

  lemma FirstLine(m: map<int, Batch>, lines: seq<OrderLine>)
    requires lines != []
    ensures LinePasses(m, lines, 0) <==> lines[0].batchId in m && m[lines[0].batchId].quantity >= lines[0].quantity
  {
    assert lines[..0] == [];
  }

  /**
   * An order goes through exactly when every line passes its stock check against the stock left by
   * the lines before it.
   */
  lemma {:induction false} PlaceSucceedsIff(stored: map<int, Batch>, m: map<int, Batch>, lines: seq<OrderLine>, now: Time)
    requires m.Keys == stored.Keys
    ensures Place(stored, m, lines, now).Placed? <==> forall i :: 0 <= i < |lines| ==> LinePasses(m, lines, i)
    decreases |lines|
  {
    if lines != [] {
      FirstLine(m, lines);
      if LinePasses(m, lines, 0) {
        var m' := Take(m, lines[0], now);
        PlaceSucceedsIff(stored, m', lines[1..], now);
        forall j | 0 <= j < |lines| - 1
          ensures LinePasses(m', lines[1..], j) <==> LinePasses(m, lines, j + 1)
        {
          ShiftLine(m, lines, now, j);
        }
        if Place(stored, m, lines, now).Placed? {
          forall i | 0 <= i < |lines| ensures LinePasses(m, lines, i) {
            if i > 0 { assert LinePasses(m', lines[1..], i - 1); }
          }
        } else {
          assert !Place(stored, m', lines[1..], now).Placed?;
          var j :| 0 <= j < |lines| - 1 && !LinePasses(m', lines[1..], j);
          assert !LinePasses(m, lines, j + 1);
        }
      }
    }
  }

  /**
   * A refused order is refused at its first failing line, with that line's error: the missing id,
   * or the batch's name with its stored stock and the amount the line asked for.
   */
  lemma {:induction false} PlaceFailsAtFirstFailure(stored: map<int, Batch>, m: map<int, Batch>, lines: seq<OrderLine>, now: Time)
    requires m.Keys == stored.Keys && Place(stored, m, lines, now).Failed?
    ensures exists k ::
      && 0 <= k < |lines|
      && (forall j :: 0 <= j < k ==> LinePasses(m, lines, j))
      && !LinePasses(m, lines, k)
      && Place(stored, m, lines, now).error == LineError(stored, lines, k)
    decreases |lines|
  {
    FirstLine(m, lines);
    if LinePasses(m, lines, 0) {
      var m' := Take(m, lines[0], now);
      PlaceFailsAtFirstFailure(stored, m', lines[1..], now);
      var k' :| 0 <= k' < |lines| - 1
        && (forall j :: 0 <= j < k' ==> LinePasses(m', lines[1..], j))
        && !LinePasses(m', lines[1..], k')
        && Place(stored, m', lines[1..], now).error == LineError(stored, lines[1..], k');
      ShiftLine(m, lines, now, k');
      assert lines[1..][k'] == lines[k' + 1];
      forall j | 0 <= j < k' + 1 ensures LinePasses(m, lines, j) {
        if j > 0 { ShiftLine(m, lines, now, j - 1); }
      }
    } else {
      assert 0 <= 0 < |lines| && !LinePasses(m, lines, 0) && Place(stored, m, lines, now).error == LineError(stored, lines, 0);
    }
  }

  /**
   * The stock a refusal shows can cover the amount asked for: with 5 flowers in batch 7 and two
   * lines of 3, the second line sees 2 and is refused, while the message names the stored 5.
   */
  lemma RefusalShowsStoredStock(b: Batch, now: Time)
    requires b.quantity == 5
    ensures var m := map[7 := b];
      Place(m, m, [OrderLine(7, 3), OrderLine(7, 3)], now) == Failed(NotEnough(b.name, 5, 3))
  {
    var m := map[7 := b];
    var lines := [OrderLine(7, 3), OrderLine(7, 3)];
    var m1 := Take(m, lines[0], now);
    assert m1[7].quantity == 2 && lines[1..] == [OrderLine(7, 3)];
  }

  /** The table after a refused order is not given at all: the caller keeps the one it had. */
  lemma {:induction false} PlaceKeepsKeys(stored: map<int, Batch>, m: map<int, Batch>, lines: seq<OrderLine>, now: Time)
    requires m.Keys == stored.Keys
    requires Place(stored, m, lines, now).Placed?
    ensures Place(stored, m, lines, now).batches.Keys == m.Keys
    decreases |lines|
  {
    if lines != [] {
      PlaceKeepsKeys(stored, Take(m, lines[0], now), lines[1..], now);
    }
  }

  /**
   * An accepted order has one item per line, in request order, each with that line's batch id and
   * quantity and the batch's price.
   */
  lemma {:induction false} PlaceItems(stored: map<int, Batch>, m: map<int, Batch>, lines: seq<OrderLine>, now: Time)
    requires m.Keys == stored.Keys
    requires Place(stored, m, lines, now).Placed?
    ensures |Place(stored, m, lines, now).items| == |lines|
    ensures forall i :: 0 <= i < |lines| ==>
      lines[i].batchId in m
      && Place(stored, m, lines, now).items[i] == OrderItem(lines[i].batchId, lines[i].quantity, m[lines[i].batchId].price)
    decreases |lines|
  {
    if lines != [] {
      var m' := Take(m, lines[0], now);
      PlaceItems(stored, m', lines[1..], now);
      var items := Place(stored, m, lines, now).items;
      var rest := Place(stored, m', lines[1..], now).items;
      assert items == [OrderItem(lines[0].batchId, lines[0].quantity, m[lines[0].batchId].price)] + rest;
      forall i | 1 <= i < |lines|
        ensures lines[i].batchId in m
        ensures items[i] == OrderItem(lines[i].batchId, lines[i].quantity, m[lines[i].batchId].price)
      {
        assert lines[1..][i - 1] == lines[i];
        assert items[i] == rest[i - 1];
      }
    }
  }

  /**
   * After an accepted order each batch is reduced by exactly the total its lines asked for; nothing
   * but quantity, status and sale time changes, and a batch no line names is left as it was.
   */
  lemma {:induction false} PlaceStock(stored: map<int, Batch>, m: map<int, Batch>, lines: seq<OrderLine>, now: Time)
    requires m.Keys == stored.Keys
    requires Place(stored, m, lines, now).Placed?
    ensures var m' := Place(stored, m, lines, now).batches;
      && m'.Keys == m.Keys
      && (forall k :: k in m ==> SameListing(m'[k], m[k]) && m'[k].quantity == m[k].quantity - Requested(lines, k))
      && (forall k :: k in m && k !in Ids(lines) ==> m'[k] == m[k])
    decreases |lines|
  {
    if lines != [] {
      var m1 := Take(m, lines[0], now);
      PlaceStock(stored, m1, lines[1..], now);
      assert Ids(lines) == {lines[0].batchId} + Ids(lines[1..]) by {
        assert forall l :: l in lines <==> l == lines[0] || l in lines[1..];
      }
    }
  }

  /** Every batch an accepted order leaves at 0 is marked sold at the time of the order. */
  lemma {:induction false} PlaceMarksEmptiedSold(stored: map<int, Batch>, m: map<int, Batch>, lines: seq<OrderLine>, now: Time)
    requires m.Keys == stored.Keys
    requires Place(stored, m, lines, now).Placed?
    ensures var m' := Place(stored, m, lines, now).batches;
      forall k :: k in m' && k in Ids(lines) && m'[k].quantity == 0 ==> m'[k].status == Sold && m'[k].soldAt == Some(now)
    decreases |lines|
  {
    if lines != [] {
      var m1 := Take(m, lines[0], now);
      var m' := Place(stored, m, lines, now).batches;
      PlaceMarksEmptiedSold(stored, m1, lines[1..], now);
      PlaceStock(stored, m1, lines[1..], now);
      assert Ids(lines) == {lines[0].batchId} + Ids(lines[1..]) by {
        assert forall l :: l in lines <==> l == lines[0] || l in lines[1..];
      }
    }
  }

  predicate NoNegativeLines(lines: seq<OrderLine>) {
    forall i :: 0 <= i < |lines| ==> lines[i].quantity >= 0
  }

  lemma {:induction false} RequestedNonNegative(lines: seq<OrderLine>, id: int)
    requires NoNegativeLines(lines)
    ensures Requested(lines, id) >= 0
    decreases |lines|
  {
    if lines != [] {
      RequestedNonNegative(lines[1..], id);
    }
  }

  /**
   * With no negative line, a batch an accepted order does not empty keeps its status and sale time;
   * together with PlaceMarksEmptiedSold this is the whole status rule of `create_order`.
   */
  lemma {:induction false} PlaceKeepsStatusUnlessEmptied(stored: map<int, Batch>, m: map<int, Batch>, lines: seq<OrderLine>, now: Time)
    requires m.Keys == stored.Keys
    requires Place(stored, m, lines, now).Placed? && NoNegativeLines(lines)
    ensures var m' := Place(stored, m, lines, now).batches;
      forall k :: k in m' && m'[k].quantity != 0 ==> k in m && m'[k].status == m[k].status && m'[k].soldAt == m[k].soldAt
    decreases |lines|
  {
    PlaceKeepsKeys(stored, m, lines, now);
    if lines != [] {
      var id := lines[0].batchId;
      var m1 := Take(m, lines[0], now);
      var m' := Place(stored, m, lines, now).batches;
      assert NoNegativeLines(lines[1..]) by {
        forall i | 0 <= i < |lines| - 1 ensures lines[1..][i].quantity >= 0 {
          assert lines[1..][i] == lines[i + 1];
        }
      }
      PlaceKeepsStatusUnlessEmptied(stored, m1, lines[1..], now);
      PlaceStock(stored, m1, lines[1..], now);
      PlaceNonNegativeAt(stored, m1, lines[1..], now, id);
      RequestedNonNegative(lines[1..], id);
    }
  }

  /** A batch the request names never ends below 0: every stock check that passed left it at 0 or more. */
  lemma {:induction false} PlaceNonNegativeAt(stored: map<int, Batch>, m: map<int, Batch>, lines: seq<OrderLine>, now: Time, k: int)
    requires m.Keys == stored.Keys
    requires Place(stored, m, lines, now).Placed? && k in m && (k in Ids(lines) || m[k].quantity >= 0)
    ensures k in Place(stored, m, lines, now).batches && Place(stored, m, lines, now).batches[k].quantity >= 0
    decreases |lines|
  {
    PlaceKeepsKeys(stored, m, lines, now);
    if lines != [] {
      var m1 := Take(m, lines[0], now);
      assert Ids(lines) == {lines[0].batchId} + Ids(lines[1..]) by {
        assert forall l :: l in lines <==> l == lines[0] || l in lines[1..];
      }
      PlaceNonNegativeAt(stored, m1, lines[1..], now, k);
    }
  }

  /** An accepted order never drives any batch below 0, whatever the requested amounts. */
  lemma PlaceKeepsStockNonNegative(stored: map<int, Batch>, m: map<int, Batch>, lines: seq<OrderLine>, now: Time)
    requires m.Keys == stored.Keys
    requires Place(stored, m, lines, now).Placed?
    requires forall k :: k in m ==> m[k].quantity >= 0
    ensures var m' := Place(stored, m, lines, now).batches;
      forall k :: k in m' ==> m'[k].quantity >= 0
  {
    PlaceKeepsKeys(stored, m, lines, now);
    forall k | k in Place(stored, m, lines, now).batches ensures Place(stored, m, lines, now).batches[k].quantity >= 0 {
      PlaceNonNegativeAt(stored, m, lines, now, k);
    }
  }

  /** With no negative line, an accepted order keeps every batch consistent (sold exactly when emptied with a sale time). */
  lemma {:induction false} PlaceKeepsConsistent(stored: map<int, Batch>, m: map<int, Batch>, lines: seq<OrderLine>, now: Time)
    requires m.Keys == stored.Keys
    requires Place(stored, m, lines, now).Placed? && NoNegativeLines(lines)
    requires forall k :: k in m ==> Consistent(m[k])
    ensures var m' := Place(stored, m, lines, now).batches;
      forall k :: k in m' ==> Consistent(m'[k])
    decreases |lines|
  {
    if lines != [] {
      var l := lines[0];
      DecrementKeepsConsistent(m[l.batchId], l.quantity, now);
      assert NoNegativeLines(lines[1..]) by {
        forall i | 0 <= i < |lines| - 1 ensures lines[1..][i].quantity >= 0 {
          assert lines[1..][i] == lines[i + 1];
        }
      }
      PlaceKeepsConsistent(stored, Take(m, l, now), lines[1..], now);
    }
  }
}
