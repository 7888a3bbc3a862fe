/** Costs and values of a book never go below zero. */
module FifoValues {
  import opened Outcomes
  import opened Rounding
  import opened Movements
  import opened Fifo

  /** No average, no inventory value and no movement cost is negative. */
  ghost predicate CostsSound(book: Book) {
    && (forall p :: p in book.valuations ==> book.valuations[p].average >= 0 && book.valuations[p].value >= 0)
    && (forall k :: 0 <= k < |book.figures| ==> book.figures[k].unitCost >= 0)
  }

  lemma WeightedAverageSound(value: int, quantity: int)
    requires value >= 0 && quantity > 0
    ensures DivideRounded(value * QUANTITY_SCALE, quantity) >= 0
  {
  }

  lemma AverageKeepsCosts(book: Book, m: Movement, cost: nat)
    requires CostsSound(book) && |book.movements| == |book.figures|
    ensures Average(book, m, cost).Ok? ==> CostsSound(Average(book, m, cost).value)
  {
    hide DivideRounded, QuantityValue;
    var r := Average(book, m, cost);
    if r.Ok? {
      var current := CurrentValuation(book, m.product, cost);
      assert current.average >= 0;
      var quantity := current.quantity + m.quantity;
      var unitCost := UnitCost(book, m, current.average).value;
      var value := if quantity == 0 then 0 else current.value + QuantityValue(m.quantity, unitCost);
      if IsValuedEntry(m) && quantity > 0 {
        WeightedAverageSound(value, quantity);
      }
      assert unitCost >= 0;
    }
  }

  lemma ApplyKeepsCosts(book: Book, m: Movement, cost: nat)
    requires CostsSound(book) && |book.movements| == |book.figures|
    ensures Apply(book, m, cost).Ok? ==> CostsSound(Apply(book, m, cost).value)
  {
    AverageKeepsCosts(book, m, cost);
    hide Average, BookLayers, SummaryAgrees, WeightedCost;
  }

  lemma CostOfMovement(book: Book, k: nat)
    requires CostsSound(book) && k < |book.figures|
    ensures book.figures[k].unitCost >= 0
  {
  }
}
