/**
 * `calculateTripWeights` of src/lib/utils/weightCalculations.js: a trip's
 * entries plus its carried water split into total, base, worn and consumable
 * weight, all in grams.
 */
module TripWeights {
  import opened Wrappers
  import opened WeightUnits

  /** The gear item a trip entry references (`tripItem.items`). */
  datatype GearItem = GearItem(weight: Option<real>, weightUnit: Option<string>, categoryId: Option<string>)

  /** One `trip_items` row joined with its item; a missing join is `item == None`. */
  datatype TripItemEntry = TripItemEntry(item: Option<GearItem>, quantity: Option<real>, isWorn: bool, isConsumable: bool)

  datatype WeightBreakdown = WeightBreakdown(
    total: real, base: real, worn: real, consumable: real, consumableItems: real, water: real)

  /** `if (!item || !item.weight) return`: only entries with an item and a non-zero weight count. */
  predicate Counts(e: TripItemEntry)
  {
    e.item.Some? && e.item.value.weight.Some? && e.item.value.weight.value != 0.0
  }

  /** `tripItem.quantity || 1` */
  function EffectiveQuantity(q: Option<real>): (n: real)
    ensures n != 0.0
    ensures q.None? || q.value == 0.0 ==> n == 1.0
    ensures q.Some? && q.value != 0.0 ==> n == q.value
  {
    if q.None? || q.value == 0.0 then 1.0 else q.value
  }

  /** `item.category_id || 'uncategorized'` */
  function CategoryKey(e: TripItemEntry): string
  {
    if e.item.Some? && e.item.value.categoryId.Some? && e.item.value.categoryId.value != ""
    then e.item.value.categoryId.value
    else "uncategorized"
  }

  /** `weightInGrams * quantity` for an entry that counts. */
  function ItemWeight(e: TripItemEntry): real
    requires Counts(e)
  {
    ConvertToGrams(e.item.value.weight, e.item.value.weightUnit) * EffectiveQuantity(e.quantity)
  }

  /** What one entry adds: its weight in grams times its quantity, or nothing. */
  function EntryGrams(e: TripItemEntry): (g: real)
    ensures !Counts(e) ==> g == 0.0
    ensures Counts(e) ==> g != 0.0
  {
    if Counts(e) then
      var w := ConvertToGrams(e.item.value.weight, e.item.value.weightUnit);
      assert w != 0.0;
      ItemWeight(e)
    else 0.0
  }

  /** The entries a running sum adds up. */
  datatype Slice = Everything | Worn | Consumable | InCategory(key: string)

  predicate Selects(s: Slice, e: TripItemEntry)
  {
    match s
    case Everything => true
    case Worn => e.isWorn
    case Consumable => e.isConsumable
    case InCategory(k) => CategoryKey(e) == k
  }

  /** Sum of `EntryGrams` over the entries a slice selects, in list order. */
  function Subtotal(es: seq<TripItemEntry>, s: Slice): real
    decreases |es|
  {
    if es == [] then 0.0
    else
      var last := es[|es| - 1];
      Subtotal(es[..|es| - 1], s) + (if Selects(s, last) then EntryGrams(last) else 0.0)
  }

  /**
   * `calculateTripWeights(tripItems, waterVolumeLiters)`; a null list is the
   * empty list. The result keeps total = base + worn + consumable and
   * consumable = consumableItems + water.
   */
  method CalculateTripWeights(tripItems: seq<TripItemEntry>, waterVolumeLiters: real) returns (w: WeightBreakdown)
    ensures w.water == WaterWeightInGrams(waterVolumeLiters)
    ensures w.total == Subtotal(tripItems, Everything) + w.water
    ensures w.worn == Subtotal(tripItems, Worn)
    ensures w.consumableItems == Subtotal(tripItems, Consumable)
    ensures w.consumable == w.consumableItems + w.water
    ensures w.total == w.base + w.worn + w.consumable
  {
    var waterWeight := WaterWeightInGrams(waterVolumeLiters);
    if |tripItems| == 0 {
      return WeightBreakdown(waterWeight, 0.0, 0.0, waterWeight, 0.0, waterWeight);
    }
    var total, worn, consumableItems := 0.0, 0.0, 0.0;
    for i := 0 to |tripItems|
      invariant total == Subtotal(tripItems[..i], Everything)
      invariant worn == Subtotal(tripItems[..i], Worn)
      invariant consumableItems == Subtotal(tripItems[..i], Consumable)
    {
      var tripItem := tripItems[i];
      SubtotalStep(tripItems, i, Everything);
      SubtotalStep(tripItems, i, Worn);
      SubtotalStep(tripItems, i, Consumable);
      if !Counts(tripItem) {
        continue;
      }
      var itemTotal := ItemWeight(tripItem);
      total := total + itemTotal;
      if tripItem.isWorn {
        worn := worn + itemTotal;
      }
      if tripItem.isConsumable {
        consumableItems := consumableItems + itemTotal;
      }
    }
    assert tripItems[..|tripItems|] == tripItems;
    total := total + waterWeight;
    var consumable := consumableItems + waterWeight;
    var base := total - worn - consumable;
    w := WeightBreakdown(total, base, worn, consumable, consumableItems, waterWeight);
  }

  /** One more entry adds its weight to every slice that selects it. */
  lemma {:induction false} SubtotalStep(es: seq<TripItemEntry>, i: nat, s: Slice)
    requires i < |es|
    ensures Subtotal(es[..i + 1], s) == Subtotal(es[..i], s) + (if Selects(s, es[i]) then EntryGrams(es[i]) else 0.0)
  {
    assert es[..i + 1][..i] == es[..i];
    assert es[..i + 1][i] == es[i];
  }

  /** Subtotals add up over concatenated lists. */
  lemma {:induction false} SubtotalAppend(a: seq<TripItemEntry>, b: seq<TripItemEntry>, s: Slice)
    ensures Subtotal(a + b, s) == Subtotal(a, s) + Subtotal(b, s)
    decreases |b|
  {
    if b == [] {
      assert a + b == a;
    } else {
      var b' := b[..|b| - 1];
      assert (a + b)[..|a + b| - 1] == a + b';
      SubtotalAppend(a, b', s);
    }
  }

  /** The entries that count, in order. */
  function Counted(es: seq<TripItemEntry>): (cs: seq<TripItemEntry>)
    ensures forall e :: e in cs ==> Counts(e)
    decreases |es|
  {
    if es == [] then []
    else
      var last := es[|es| - 1];
      Counted(es[..|es| - 1]) + (if Counts(last) then [last] else [])
  }

  /** Entries without an item or with a falsy weight contribute nothing to any field. */
  lemma {:induction false} SkippedEntriesContributeNothing(es: seq<TripItemEntry>, s: Slice)
    ensures Subtotal(Counted(es), s) == Subtotal(es, s)
    decreases |es|
  {
    if es != [] {
      var init, last := es[..|es| - 1], es[|es| - 1];
      var kept := if Counts(last) then [last] else [];
      SkippedEntriesContributeNothing(init, s);
      assert Counted(es) == Counted(init) + kept;
      SubtotalAppend(Counted(init), kept, s);
      assert Subtotal(kept, s) == (if Selects(s, last) then EntryGrams(last) else 0.0) by {
        if Counts(last) {
          assert kept[..0] == [];
        }
      }
    }
  }

  /**
   * Worn and consumable are independent flags. When no entry carries both
   * and every entry weighs a non-negative amount, the base weight is never
   * negative.
   */
  lemma {:induction false} ExclusiveFlagsKeepBaseNonNegative(es: seq<TripItemEntry>)
    requires forall e :: e in es ==> !(e.isWorn && e.isConsumable) && EntryGrams(e) >= 0.0
    ensures 0.0 <= Subtotal(es, Worn) + Subtotal(es, Consumable) <= Subtotal(es, Everything)
    decreases |es|
  {
    if es != [] {
      var init := es[..|es| - 1];
      assert forall e :: e in init ==> e in es;
      ExclusiveFlagsKeepBaseNonNegative(init);
      assert es[|es| - 1] in es;
    }
  }

  /** An entry flagged both worn and consumable is subtracted twice from the base weight. */
  lemma BothFlagsSubtractTwice(es: seq<TripItemEntry>, e: TripItemEntry)
    requires e.isWorn && e.isConsumable
    ensures var all := es + [e];
      Subtotal(all, Everything) - Subtotal(all, Worn) - Subtotal(all, Consumable) ==
      Subtotal(es, Everything) - Subtotal(es, Worn) - Subtotal(es, Consumable) - EntryGrams(e)
  {
    var all := es + [e];
    assert all[..|all| - 1] == es;
  }

  /**
   * A 2 lb tent, an 8 oz jacket that is worn, three 4 oz snack bars that are
   * consumable, and 2 L of water: the base weight is exactly the tent.
   */
  lemma {:induction false} PackingListExample()
    ensures var tent := TripItemEntry(Some(GearItem(Some(2.0), Some("lb"), None)), Some(1.0), false, false);
      var jacket := TripItemEntry(Some(GearItem(Some(8.0), Some("oz"), None)), Some(1.0), true, false);
      var snacks := TripItemEntry(Some(GearItem(Some(4.0), Some("oz"), None)), Some(3.0), false, true);
      var es := [tent, jacket, snacks];
      var water := WaterWeightInGrams(2.0);
      && water == 2000.0
      && Subtotal(es, Worn) == 226.796
      && Subtotal(es, Consumable) == 340.194
      && Subtotal(es, Everything) + water == 3474.174
      && Subtotal(es, Everything) + water - Subtotal(es, Worn) - (Subtotal(es, Consumable) + water) == 907.184
  {
    var tent := TripItemEntry(Some(GearItem(Some(2.0), Some("lb"), None)), Some(1.0), false, false);
    var jacket := TripItemEntry(Some(GearItem(Some(8.0), Some("oz"), None)), Some(1.0), true, false);
    var snacks := TripItemEntry(Some(GearItem(Some(4.0), Some("oz"), None)), Some(3.0), false, true);
    var es := [tent, jacket, snacks];
    assert ToLower("lb") == "lb" && ToLower("oz") == "oz";
    assert EntryGrams(tent) == 907.184;
    assert EntryGrams(jacket) == 226.796;
    assert EntryGrams(snacks) == 340.194;
    assert es[..2] == [tent, jacket] && es[..2][..1] == [tent] && es[..2][..1][..0] == [];
    forall s: Slice
      ensures Subtotal(es, s) == Subtotal([tent, jacket], s) + (if Selects(s, snacks) then EntryGrams(snacks) else 0.0)
      ensures Subtotal([tent, jacket], s) == Subtotal([tent], s) + (if Selects(s, jacket) then EntryGrams(jacket) else 0.0)
      ensures Subtotal([tent], s) == (if Selects(s, tent) then EntryGrams(tent) else 0.0)
    {
      assert [tent, jacket][..1] == [tent] && [tent][..0] == [];
    }
  }
}
