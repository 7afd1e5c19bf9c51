/**
 * `getWeightByCategory` of src/lib/utils/weightCalculations.js: trip weight
 * per category, carried water as its own bucket, percentages of the total,
 * heaviest bucket first.
 */
module CategoryBreakdown {
  import opened Wrappers
  import opened WeightUnits
  import opened TripWeights

  const WaterKey: string := "carried-water"
  const WaterLabel: string := "Carried Water"
  const WaterCategoryColor: string := "#147DF5"
  const UncategorizedLabel: string := "Uncategorized"
  const UncategorizedColor: string := "#6b7280"

  /** An entry of `categoryMap`. */
  datatype Category = Category(name: string, color: string)

  datatype CategoryBucket = CategoryBucket(id: string, category: string, color: string, weight: real, percentage: real)

  /** The `categoryWeights` object: its keys with their weights, in insertion order. */
  type Weights = seq<(string, real)>

  function Keys(ws: Weights): set<string>
  {
    set p | p in ws :: p.0
  }

  predicate DistinctKeys(ws: Weights)
  {
    forall i, j :: 0 <= i < j < |ws| ==> ws[i].0 != ws[j].0
  }

  /** `categoryWeights[k]`, with an absent key read as 0. */
  function Lookup(ws: Weights, k: string): real
  {
    if ws == [] then 0.0
    else if ws[0].0 == k then ws[0].1
    else Lookup(ws[1..], k)
  }

  function SumWeights(ws: Weights): real
  {
    if ws == [] then 0.0 else ws[0].1 + SumWeights(ws[1..])
  }

  lemma {:induction false} KeysCons(ws: Weights)
    requires ws != []
    ensures Keys(ws) == {ws[0].0} + Keys(ws[1..])
  {
    assert forall p :: p in ws <==> p == ws[0] || p in ws[1..];
  }

  /** Keys are distinct exactly when the first key is new and the rest are distinct. */
  lemma DistinctCons(ws: Weights)
    requires ws != []
    ensures DistinctKeys(ws) <==> ws[0].0 !in Keys(ws[1..]) && DistinctKeys(ws[1..])
  {
    if ws[0].0 !in Keys(ws[1..]) && DistinctKeys(ws[1..]) {
      forall i, j | 0 <= i < j < |ws| ensures ws[i].0 != ws[j].0 {
        assert ws[j] == ws[1..][j - 1];
        if i > 0 {
          assert ws[i] == ws[1..][i - 1];
        }
      }
    }
    if DistinctKeys(ws) {
      forall p | p in ws[1..] ensures p.0 != ws[0].0 {
        var j :| 0 <= j < |ws[1..]| && ws[1..][j] == p;
        assert ws[j + 1] == p;
      }
    }
  }

  /** With distinct keys, every pair is what a lookup of its key reads. */
  lemma {:induction false} LookupAt(ws: Weights, i: nat)
    requires DistinctKeys(ws) && i < |ws|
    ensures Lookup(ws, ws[i].0) == ws[i].1
  {
    if i > 0 {
      DistinctCons(ws);
      assert ws[i] in ws[1..];
      LookupAt(ws[1..], i - 1);
    }
  }

  /** `if (!categoryWeights[k]) categoryWeights[k] = 0; categoryWeights[k] += w` */
  function AddTo(ws: Weights, k: string, w: real): Weights
  {
    if ws == [] then [(k, w)]
    else if ws[0].0 == k then [(k, ws[0].1 + w)] + ws[1..]
    else [ws[0]] + AddTo(ws[1..], k, w)
  }

  lemma {:induction false} AddToKeys(ws: Weights, k: string, w: real)
    ensures Keys(AddTo(ws, k, w)) == Keys(ws) + {k}
    ensures DistinctKeys(ws) ==> DistinctKeys(AddTo(ws, k, w))
  {
    var r := AddTo(ws, k, w);
    if ws == [] {
      assert r[1..] == [];
      KeysCons(r);
    } else {
      if ws[0].0 == k {
        assert r[1..] == ws[1..];
      } else {
        AddToKeys(ws[1..], k, w);
        assert r[1..] == AddTo(ws[1..], k, w);
      }
      KeysCons(r);
      KeysCons(ws);
      DistinctCons(ws);
      DistinctCons(r);
    }
  }

  lemma {:induction false} AddToLookup(ws: Weights, k: string, w: real)
    ensures forall k' :: Lookup(AddTo(ws, k, w), k') == Lookup(ws, k') + (if k' == k then w else 0.0)
  {
    if ws != [] && ws[0].0 != k {
      AddToLookup(ws[1..], k, w);
      assert AddTo(ws, k, w)[1..] == AddTo(ws[1..], k, w);
    }
  }

  lemma {:induction false} AddToSum(ws: Weights, k: string, w: real)
    ensures SumWeights(AddTo(ws, k, w)) == SumWeights(ws) + w
  {
    var r := AddTo(ws, k, w);
    if ws == [] {
      assert r[1..] == [];
    } else if ws[0].0 == k {
      assert r[1..] == ws[1..];
    } else {
      AddToSum(ws[1..], k, w);
      assert r[1..] == AddTo(ws[1..], k, w);
    }
  }

  /** Adding to a key keeps the other keys and weights, and adds `w` to that key and to the sum. */
  lemma {:induction false} AddToFacts(ws: Weights, k: string, w: real)
    ensures Keys(AddTo(ws, k, w)) == Keys(ws) + {k}
    ensures forall k' :: Lookup(AddTo(ws, k, w), k') == Lookup(ws, k') + (if k' == k then w else 0.0)
    ensures SumWeights(AddTo(ws, k, w)) == SumWeights(ws) + w
    ensures DistinctKeys(ws) ==> DistinctKeys(AddTo(ws, k, w))
  {
    AddToKeys(ws, k, w);
    AddToLookup(ws, k, w);
    AddToSum(ws, k, w);
  }

  /** `categoryWeights[k] = w`: overwrite the key in place or append it. */
  function Put(ws: Weights, k: string, w: real): Weights
  {
    if ws == [] then [(k, w)]
    else if ws[0].0 == k then [(k, w)] + ws[1..]
    else [ws[0]] + Put(ws[1..], k, w)
  }

  lemma {:induction false} PutKeys(ws: Weights, k: string, w: real)
    ensures Keys(Put(ws, k, w)) == Keys(ws) + {k}
    ensures DistinctKeys(ws) ==> DistinctKeys(Put(ws, k, w))
  {
    var r := Put(ws, k, w);
    if ws == [] {
      assert r[1..] == [];
      KeysCons(r);
    } else {
      if ws[0].0 == k {
        assert r[1..] == ws[1..];
      } else {
        PutKeys(ws[1..], k, w);
        assert r[1..] == Put(ws[1..], k, w);
      }
      KeysCons(r);
      KeysCons(ws);
      DistinctCons(ws);
      DistinctCons(r);
    }
  }

  lemma {:induction false} PutLookup(ws: Weights, k: string, w: real)
    ensures forall k' :: Lookup(Put(ws, k, w), k') == (if k' == k then w else Lookup(ws, k'))
  {
    if ws != [] && ws[0].0 != k {
      PutLookup(ws[1..], k, w);
      assert Put(ws, k, w)[1..] == Put(ws[1..], k, w);
    }
  }

  lemma {:induction false} PutAppends(ws: Weights, k: string, w: real)
    requires k !in Keys(ws)
    ensures Put(ws, k, w) == ws + [(k, w)]
  {
    if ws != [] {
      KeysCons(ws);
      PutAppends(ws[1..], k, w);
      assert ws == [ws[0]] + ws[1..];
    }
  }

  lemma {:induction false} PutFacts(ws: Weights, k: string, w: real)
    ensures Keys(Put(ws, k, w)) == Keys(ws) + {k}
    ensures forall k' :: Lookup(Put(ws, k, w), k') == (if k' == k then w else Lookup(ws, k'))
    ensures k !in Keys(ws) ==> Put(ws, k, w) == ws + [(k, w)]
    ensures DistinctKeys(ws) ==> DistinctKeys(Put(ws, k, w))
  {
    PutKeys(ws, k, w);
    PutLookup(ws, k, w);
    if k !in Keys(ws) {
      PutAppends(ws, k, w);
    }
  }

  lemma {:induction false} SumAppend(ws: Weights, p: (string, real))
    ensures SumWeights(ws + [p]) == SumWeights(ws) + p.1
  {
    if ws != [] {
      assert (ws + [p])[1..] == ws[1..] + [p];
      SumAppend(ws[1..], p);
    }
  }

  /** The accumulation loop of `getWeightByCategory` over a list of entries. */
  function Accumulate(es: seq<TripItemEntry>): Weights
    decreases |es|
  {
    if es == [] then []
    else
      var ws := Accumulate(es[..|es| - 1]);
      var last := es[|es| - 1];
      if Counts(last) then AddTo(ws, CategoryKey(last), EntryGrams(last)) else ws
  }

  /** The category keys of the entries that count. */
  function CountedKeys(es: seq<TripItemEntry>): set<string>
  {
    set e | e in es && Counts(e) :: CategoryKey(e)
  }

  /**
   * Each key of the accumulated object is the key of some counted entry and
   * holds exactly the weight of that category; the values add up to the
   * weight of all entries.
   */
  lemma {:induction false} AccumulateFacts(es: seq<TripItemEntry>)
    ensures DistinctKeys(Accumulate(es))
    ensures Keys(Accumulate(es)) == CountedKeys(es)
    ensures forall k :: Lookup(Accumulate(es), k) == Subtotal(es, InCategory(k))
    ensures SumWeights(Accumulate(es)) == Subtotal(es, Everything)
    decreases |es|
  {
    if es == [] {
      assert CountedKeys(es) == {};
    } else {
      var init, last := es[..|es| - 1], es[|es| - 1];
      AccumulateFacts(init);
      if Counts(last) {
        AddToFacts(Accumulate(init), CategoryKey(last), EntryGrams(last));
      }
      assert forall e :: e in es <==> e in init || e == last;
      assert CountedKeys(es) == CountedKeys(init) + (if Counts(last) then {CategoryKey(last)} else {});
    }
  }

  /** No counted entry uses the reserved key of carried water as its category id. */
  predicate NoWaterKeyCollision(es: seq<TripItemEntry>)
  {
    WaterKey !in CountedKeys(es)
  }

  /** Lines 242-246: add carried water under its reserved key. */
  function WithWater(ws: Weights, water: real): Weights
  {
    if water > 0.0 then Put(ws, WaterKey, water) else ws
  }

  /** `category?.name || 'Uncategorized'` */
  function Label(categoryMap: map<string, Category>, id: string): string
  {
    if id in categoryMap && categoryMap[id].name != "" then categoryMap[id].name else UncategorizedLabel
  }

  /** `category?.color || '#6b7280'` */
  function ColorOf(categoryMap: map<string, Category>, id: string): string
  {
    if id in categoryMap && categoryMap[id].color != "" then categoryMap[id].color else UncategorizedColor
  }

  /** The `.map` callback of lines 252-272. */
  function BucketFor(p: (string, real), categoryMap: map<string, Category>, totalWeight: real): CategoryBucket
    requires totalWeight != 0.0
  {
    if p.0 == WaterKey then CategoryBucket(WaterKey, WaterLabel, WaterCategoryColor, p.1, p.1 / totalWeight * 100.0)
    else CategoryBucket(p.0, Label(categoryMap, p.0), ColorOf(categoryMap, p.0), p.1, p.1 / totalWeight * 100.0)
  }

  function SumBucketWeights(bs: seq<CategoryBucket>): real
  {
    if bs == [] then 0.0 else bs[0].weight + SumBucketWeights(bs[1..])
  }

  function SumPercentages(bs: seq<CategoryBucket>): real
  {
    if bs == [] then 0.0 else bs[0].percentage + SumPercentages(bs[1..])
  }

  predicate DistinctIds(bs: seq<CategoryBucket>)
  {
    forall i, j :: 0 <= i < j < |bs| ==> bs[i].id != bs[j].id
  }

  /** `Object.entries(categoryWeights).map(...)`: one bucket per key, in key order. */
  function ToBuckets(ws: Weights, categoryMap: map<string, Category>, totalWeight: real): (bs: seq<CategoryBucket>)
    requires totalWeight != 0.0
    ensures |bs| == |ws|
    ensures forall i :: 0 <= i < |ws| ==> bs[i] == BucketFor(ws[i], categoryMap, totalWeight)
  {
    if ws == [] then []
    else [BucketFor(ws[0], categoryMap, totalWeight)] + ToBuckets(ws[1..], categoryMap, totalWeight)
  }

  lemma PercentagesAdd(a: real, b: real, t: real)
    requires t != 0.0
    ensures a / t * 100.0 + b / t * 100.0 == (a + b) / t * 100.0
  {
  }

  /** Bucket weights add up to the object's sum, and percentages to that sum over the total times 100. */
  lemma {:induction false} ToBucketsSums(ws: Weights, categoryMap: map<string, Category>, totalWeight: real)
    requires totalWeight != 0.0
    ensures SumBucketWeights(ToBuckets(ws, categoryMap, totalWeight)) == SumWeights(ws)
    ensures SumPercentages(ToBuckets(ws, categoryMap, totalWeight)) == SumWeights(ws) / totalWeight * 100.0
  {
    if ws != [] {
      var bs := ToBuckets(ws, categoryMap, totalWeight);
      ToBucketsSums(ws[1..], categoryMap, totalWeight);
      assert bs[1..] == ToBuckets(ws[1..], categoryMap, totalWeight);
      PercentagesAdd(ws[0].1, SumWeights(ws[1..]), totalWeight);
    }
  }

  predicate SortedByWeight(bs: seq<CategoryBucket>)
  {
    forall i, j :: 0 <= i < j < |bs| ==> bs[i].weight >= bs[j].weight
  }

  /** Insert before the first bucket that is no heavier, so equal weights keep their order. */
  function InsertByWeight(x: CategoryBucket, s: seq<CategoryBucket>): seq<CategoryBucket>
  {
    if s == [] || s[0].weight <= x.weight then [x] + s
    else [s[0]] + InsertByWeight(x, s[1..])
  }

  lemma {:induction false} InsertMultiset(x: CategoryBucket, s: seq<CategoryBucket>)
    ensures multiset(InsertByWeight(x, s)) == multiset(s) + multiset{x}
  {
    if s != [] && s[0].weight > x.weight {
      InsertMultiset(x, s[1..]);
      assert InsertByWeight(x, s) == [s[0]] + InsertByWeight(x, s[1..]);
      assert s == [s[0]] + s[1..];
    }
  }

  lemma {:induction false} InsertSums(x: CategoryBucket, s: seq<CategoryBucket>)
    ensures SumBucketWeights(InsertByWeight(x, s)) == x.weight + SumBucketWeights(s)
    ensures SumPercentages(InsertByWeight(x, s)) == x.percentage + SumPercentages(s)
  {
    var r := InsertByWeight(x, s);
    if s == [] || s[0].weight <= x.weight {
      assert r[1..] == s;
    } else {
      InsertSums(x, s[1..]);
      assert r[1..] == InsertByWeight(x, s[1..]);
    }
  }

  /** Everything in the result of an insertion is the inserted bucket or was already there. */
  lemma {:induction false} InsertMembers(x: CategoryBucket, s: seq<CategoryBucket>)
    ensures forall y :: y in InsertByWeight(x, s) <==> y == x || y in s
  {
    if s != [] && s[0].weight > x.weight {
      InsertMembers(x, s[1..]);
      assert s == [s[0]] + s[1..];
    }
  }

  lemma {:induction false} SortedTail(s: seq<CategoryBucket>)
    requires s != [] && SortedByWeight(s)
    ensures SortedByWeight(s[1..])
  {
    forall i, j | 0 <= i < j < |s| - 1 ensures s[1..][i].weight >= s[1..][j].weight {
      assert s[1..][i] == s[i + 1] && s[1..][j] == s[j + 1];
    }
  }

  /** A bucket at least as heavy as every bucket of a sorted list can go in front of it. */
  lemma {:induction false} SortedCons(a: CategoryBucket, t: seq<CategoryBucket>)
    requires SortedByWeight(t)
    requires forall y :: y in t ==> y.weight <= a.weight
    ensures SortedByWeight([a] + t)
  {
    var r := [a] + t;
    forall i, j | 0 <= i < j < |r| ensures r[i].weight >= r[j].weight {
      assert r[j] == t[j - 1];
      if i == 0 {
        assert t[j - 1] in t;
      } else {
        assert r[i] == t[i - 1];
      }
    }
  }

  lemma {:induction false} IdsDistinctTail(s: seq<CategoryBucket>)
    requires s != [] && DistinctIds(s)
    ensures DistinctIds(s[1..])
  {
    forall i, j | 0 <= i < j < |s| - 1 ensures s[1..][i].id != s[1..][j].id {
      assert s[1..][i] == s[i + 1] && s[1..][j] == s[j + 1];
    }
  }

  /** A bucket whose id no bucket of a list shares can go in front of it. */
  lemma {:induction false} IdsDistinctCons(a: CategoryBucket, t: seq<CategoryBucket>)
    requires DistinctIds(t)
    requires forall y :: y in t ==> y.id != a.id
    ensures DistinctIds([a] + t)
  {
    var r := [a] + t;
    forall i, j | 0 <= i < j < |r| ensures r[i].id != r[j].id {
      assert r[j] == t[j - 1];
      if i == 0 {
        assert t[j - 1] in t;
      } else {
        assert r[i] == t[i - 1];
      }
    }
  }

  lemma {:induction false} InsertSorted(x: CategoryBucket, s: seq<CategoryBucket>)
    requires SortedByWeight(s)
    ensures SortedByWeight(InsertByWeight(x, s))
  {
    if s == [] || s[0].weight <= x.weight {
      forall y | y in s ensures y.weight <= x.weight {
        var k :| 0 <= k < |s| && s[k] == y;
        assert s[0].weight >= s[k].weight;
      }
      SortedCons(x, s);
    } else {
      var rest := InsertByWeight(x, s[1..]);
      SortedTail(s);
      InsertSorted(x, s[1..]);
      InsertMembers(x, s[1..]);
      forall y | y in rest ensures y.weight <= s[0].weight {
        if y != x {
          var k :| 0 <= k < |s[1..]| && s[1..][k] == y;
          assert y == s[k + 1];
        }
      }
      SortedCons(s[0], rest);
    }
  }

  lemma {:induction false} InsertDistinct(x: CategoryBucket, s: seq<CategoryBucket>)
    requires DistinctIds(s)
    requires forall y :: y in s ==> y.id != x.id
    ensures DistinctIds(InsertByWeight(x, s))
  {
    if s == [] || s[0].weight <= x.weight {
      IdsDistinctCons(x, s);
    } else {
      var rest := InsertByWeight(x, s[1..]);
      IdsDistinctTail(s);
      assert forall y :: y in s[1..] ==> y in s;
      InsertDistinct(x, s[1..]);
      InsertMembers(x, s[1..]);
      assert s[0] in s;
      forall y | y in rest ensures y.id != s[0].id {
        if y != x {
          var k :| 0 <= k < |s[1..]| && s[1..][k] == y;
          assert y == s[k + 1];
        }
      }
      IdsDistinctCons(s[0], rest);
    }
  }

  /** `.sort((a, b) => b.weight - a.weight)`: a stable insertion sort, heaviest first. */
  function SortByWeight(bs: seq<CategoryBucket>): seq<CategoryBucket>
  {
    if bs == [] then [] else InsertByWeight(bs[0], SortByWeight(bs[1..]))
  }

  lemma {:induction false} SortMultiset(bs: seq<CategoryBucket>)
    ensures multiset(SortByWeight(bs)) == multiset(bs)
  {
    if bs != [] {
      SortMultiset(bs[1..]);
      InsertMultiset(bs[0], SortByWeight(bs[1..]));
      assert bs == [bs[0]] + bs[1..];
    }
  }

  lemma {:induction false} SortSums(bs: seq<CategoryBucket>)
    ensures SumBucketWeights(SortByWeight(bs)) == SumBucketWeights(bs)
    ensures SumPercentages(SortByWeight(bs)) == SumPercentages(bs)
  {
    if bs != [] {
      SortSums(bs[1..]);
      InsertSums(bs[0], SortByWeight(bs[1..]));
    }
  }

  lemma {:induction false} SortSorted(bs: seq<CategoryBucket>)
    ensures SortedByWeight(SortByWeight(bs))
  {
    if bs != [] {
      SortSorted(bs[1..]);
      InsertSorted(bs[0], SortByWeight(bs[1..]));
    }
  }

  /** The sort returns a permutation ordered by non-increasing weight, with the same sums. */
  lemma {:induction false} SortFacts(bs: seq<CategoryBucket>)
    ensures multiset(SortByWeight(bs)) == multiset(bs)
    ensures SortedByWeight(SortByWeight(bs))
    ensures SumBucketWeights(SortByWeight(bs)) == SumBucketWeights(bs)
    ensures SumPercentages(SortByWeight(bs)) == SumPercentages(bs)
  {
    SortMultiset(bs);
    SortSorted(bs);
    SortSums(bs);
  }

  /** The sorted buckets are the buckets given. */
  lemma {:induction false} SortMembers(bs: seq<CategoryBucket>)
    ensures forall b :: b in SortByWeight(bs) <==> b in bs
  {
    var r := SortByWeight(bs);
    SortMultiset(bs);
    forall b ensures b in r <==> b in bs {
      assert b in r <==> b in multiset(r);
      assert b in bs <==> b in multiset(bs);
    }
  }

  /** Sorting buckets with distinct ids keeps them distinct. */
  lemma {:induction false} SortDistinct(bs: seq<CategoryBucket>)
    requires DistinctIds(bs)
    ensures DistinctIds(SortByWeight(bs))
  {
    if bs != [] {
      var tail := bs[1..];
      var rest := SortByWeight(tail);
      IdsDistinctTail(bs);
      SortDistinct(tail);
      SortMembers(tail);
      forall y | y in rest ensures y.id != bs[0].id {
        var j :| 0 <= j < |tail| && tail[j] == y;
        assert y == bs[j + 1];
      }
      InsertDistinct(bs[0], rest);
    }
  }

  /** The ids the buckets carry. */
  function Ids(bs: seq<CategoryBucket>): set<string>
  {
    set b | b in bs :: b.id
  }

  /** Sorting keeps the set of ids. */
  lemma {:induction false} SortKeepsIds(bs: seq<CategoryBucket>)
    ensures Ids(SortByWeight(bs)) == Ids(bs)
  {
    var r := SortByWeight(bs);
    SortMembers(bs);
    forall k | k in Ids(r) ensures k in Ids(bs) {
      var b :| b in r && b.id == k;
      assert b in bs;
    }
    forall k | k in Ids(bs) ensures k in Ids(r) {
      var b :| b in bs && b.id == k;
      assert b in r;
    }
  }

  /** `totalWeight` after the water is added: every counted entry plus carried water. */
  function TripTotal(es: seq<TripItemEntry>, waterVolumeLiters: real): real
  {
    Subtotal(es, Everything) + WaterWeightInGrams(waterVolumeLiters)
  }

  /** The accumulated object once water is added, as a function of the entries. */
  lemma {:induction false} WeightsFacts(es: seq<TripItemEntry>, water: real)
    requires water >= 0.0
    ensures var ws := WithWater(Accumulate(es), water);
      && DistinctKeys(ws)
      && Keys(ws) == CountedKeys(es) + (if water > 0.0 then {WaterKey} else {})
      && (forall k :: k != WaterKey ==> Lookup(ws, k) == Subtotal(es, InCategory(k)))
      && (water > 0.0 ==> Lookup(ws, WaterKey) == water)
      && (NoWaterKeyCollision(es) ==> SumWeights(ws) == Subtotal(es, Everything) + water)
      && (ws == [] ==> Subtotal(es, Everything) + water == 0.0)
  {
    var acc := Accumulate(es);
    AccumulateFacts(es);
    if water > 0.0 {
      PutFacts(acc, WaterKey, water);
      if NoWaterKeyCollision(es) {
        SumAppend(acc, (WaterKey, water));
      }
    }
  }

  /** What a single bucket of the result says about the entries it summarises. */
  predicate Describes(b: CategoryBucket, es: seq<TripItemEntry>, categoryMap: map<string, Category>, total: real)
  {
    && total != 0.0
    && b.percentage == b.weight / total * 100.0
    && (b.id == WaterKey || b.id in CountedKeys(es))
    && (b.id != WaterKey ==>
          b.weight == Subtotal(es, InCategory(b.id)) &&
          b.category == Label(categoryMap, b.id) && b.color == ColorOf(categoryMap, b.id))
    && (b.id == WaterKey ==> b.category == WaterLabel && b.color == WaterCategoryColor)
  }

  /** The buckets of lines 251-272 before the sort, for a non-zero total. */
  function Unsorted(es: seq<TripItemEntry>, categoryMap: map<string, Category>, water: real): seq<CategoryBucket>
    requires Subtotal(es, Everything) + water != 0.0
  {
    ToBuckets(WithWater(Accumulate(es), water), categoryMap, Subtotal(es, Everything) + water)
  }

  /** Bucket `i` of the unsorted result describes the category (or the water) it stands for. */
  lemma {:induction false} BucketDescribes(es: seq<TripItemEntry>, categoryMap: map<string, Category>, water: real, i: nat)
    requires water >= 0.0 && Subtotal(es, Everything) + water != 0.0
    requires i < |WithWater(Accumulate(es), water)|
    ensures Describes(Unsorted(es, categoryMap, water)[i], es, categoryMap, Subtotal(es, Everything) + water)
  {
    var total := Subtotal(es, Everything) + water;
    var ws := WithWater(Accumulate(es), water);
    var p := ws[i];
    var b := Unsorted(es, categoryMap, water)[i];
    assert b == BucketFor(p, categoryMap, total);
    WeightsFacts(es, water);
    assert p in ws;
    assert p.0 in Keys(ws);
    if p.0 != WaterKey {
      LookupAt(ws, i);
      assert b.weight == Lookup(ws, p.0);
    }
  }

  /** Distinct keys give distinct bucket ids. */
  lemma {:induction false} BucketIdsDistinct(ws: Weights, categoryMap: map<string, Category>, totalWeight: real)
    requires totalWeight != 0.0 && DistinctKeys(ws)
    ensures DistinctIds(ToBuckets(ws, categoryMap, totalWeight))
  {
    var bs := ToBuckets(ws, categoryMap, totalWeight);
    forall i, j | 0 <= i < j < |bs| ensures bs[i].id != bs[j].id {
      assert bs[i].id == ws[i].0 && bs[j].id == ws[j].0;
    }
  }

  /** The buckets carry exactly the keys of the object they are made from. */
  lemma {:induction false} BucketIdsAreKeys(ws: Weights, categoryMap: map<string, Category>, totalWeight: real)
    requires totalWeight != 0.0
    ensures Ids(ToBuckets(ws, categoryMap, totalWeight)) == Keys(ws)
  {
    var bs := ToBuckets(ws, categoryMap, totalWeight);
    forall k | k in Keys(ws) ensures k in Ids(bs) {
      var p :| p in ws && p.0 == k;
      var i :| 0 <= i < |ws| && ws[i] == p;
      assert bs[i] in bs;
    }
    forall k | k in Ids(bs) ensures k in Keys(ws) {
      var b :| b in bs && b.id == k;
      var i :| 0 <= i < |bs| && bs[i] == b;
      assert ws[i] in ws;
    }
  }

  /** With water, the unsorted buckets hold one for carried water weighing exactly the water. */
  lemma {:induction false} WaterBucket(es: seq<TripItemEntry>, categoryMap: map<string, Category>, water: real)
    requires water > 0.0 && Subtotal(es, Everything) + water != 0.0
    ensures exists b :: b in Unsorted(es, categoryMap, water) && b.id == WaterKey && b.weight == water
  {
    var ws := WithWater(Accumulate(es), water);
    var bs := Unsorted(es, categoryMap, water);
    WeightsFacts(es, water);
    assert WaterKey in Keys(ws);
    var p :| p in ws && p.0 == WaterKey;
    var i :| 0 <= i < |ws| && ws[i] == p;
    LookupAt(ws, i);
    assert bs[i] in bs && bs[i].id == WaterKey && bs[i].weight == water;
  }

  /** The unsorted buckets carry the keys of the accumulated object, once each. */
  lemma {:induction false} BucketIds(es: seq<TripItemEntry>, categoryMap: map<string, Category>, water: real)
    requires water >= 0.0 && Subtotal(es, Everything) + water != 0.0
    ensures var bs := Unsorted(es, categoryMap, water);
      && bs != []
      && DistinctIds(bs)
      && Ids(bs) == CountedKeys(es) + (if water > 0.0 then {WaterKey} else {})
      && (water > 0.0 ==> exists b :: b in bs && b.id == WaterKey && b.weight == water)
  {
    var total := Subtotal(es, Everything) + water;
    var ws := WithWater(Accumulate(es), water);
    WeightsFacts(es, water);
    BucketIdsDistinct(ws, categoryMap, total);
    BucketIdsAreKeys(ws, categoryMap, total);
    if water > 0.0 {
      WaterBucket(es, categoryMap, water);
    }
  }

  /** Every unsorted bucket describes its category. */
  lemma {:induction false} BucketsDescribe(es: seq<TripItemEntry>, categoryMap: map<string, Category>, water: real)
    requires water >= 0.0 && Subtotal(es, Everything) + water != 0.0
    ensures forall b :: b in Unsorted(es, categoryMap, water) ==> Describes(b, es, categoryMap, Subtotal(es, Everything) + water)
  {
    var total := Subtotal(es, Everything) + water;
    var bs := Unsorted(es, categoryMap, water);
    forall b | b in bs ensures Describes(b, es, categoryMap, total) {
      var i :| 0 <= i < |bs| && bs[i] == b;
      BucketDescribes(es, categoryMap, water, i);
    }
  }

  /** Without a category keyed 'carried-water', bucket weights add up to the total and percentages to 100. */
  lemma {:induction false} BucketSums(es: seq<TripItemEntry>, categoryMap: map<string, Category>, water: real)
    requires water >= 0.0 && Subtotal(es, Everything) + water != 0.0
    requires NoWaterKeyCollision(es)
    ensures var bs := Unsorted(es, categoryMap, water);
      SumBucketWeights(bs) == Subtotal(es, Everything) + water && SumPercentages(bs) == 100.0
  {
    var total := Subtotal(es, Everything) + water;
    var ws := WithWater(Accumulate(es), water);
    WeightsFacts(es, water);
    assert SumWeights(ws) == total;
    ToBucketsSums(ws, categoryMap, total);
    WholeIsHundredPercent(total);
  }

  lemma WholeIsHundredPercent(x: real)
    requires x != 0.0
    ensures x / x * 100.0 == 100.0
  {
  }

  /**
   * What `getWeightByCategory(tripItems, categoryMap, waterVolumeLiters)`
   * returns: no buckets when nothing weighs anything, otherwise the
   * per-key buckets sorted heaviest first.
   */
  function WeightByCategory(es: seq<TripItemEntry>, categoryMap: map<string, Category>, waterVolumeLiters: real): seq<CategoryBucket>
  {
    var water := WaterWeightInGrams(waterVolumeLiters);
    if Subtotal(es, Everything) + water == 0.0 then []
    else SortByWeight(Unsorted(es, categoryMap, water))
  }

  /**
   * Empty exactly when the total weight is zero; otherwise one bucket per
   * category key (carried water under its reserved key), heaviest first,
   * each describing its category.
   */
  lemma {:induction false} WeightByCategoryShape(es: seq<TripItemEntry>, categoryMap: map<string, Category>, waterVolumeLiters: real)
    ensures var r := WeightByCategory(es, categoryMap, waterVolumeLiters);
      && (r == [] <==> TripTotal(es, waterVolumeLiters) == 0.0)
      && SortedByWeight(r)
      && DistinctIds(r)
      && (forall b :: b in r ==> Describes(b, es, categoryMap, TripTotal(es, waterVolumeLiters)))
  {
    var water := WaterWeightInGrams(waterVolumeLiters);
    var total := TripTotal(es, waterVolumeLiters);
    if total != 0.0 {
      var bs := Unsorted(es, categoryMap, water);
      BucketIds(es, categoryMap, water);
      BucketsDescribe(es, categoryMap, water);
      SortSorted(bs);
      SortDistinct(bs);
      SortMembers(bs);
      assert bs[0] in SortByWeight(bs);
    }
  }

  /**
   * A non-empty result carries exactly the category keys of the counted
   * entries, plus 'carried-water' when there is water, whose bucket weighs
   * the water.
   */
  lemma {:induction false} WeightByCategoryCoverage(es: seq<TripItemEntry>, categoryMap: map<string, Category>, waterVolumeLiters: real)
    ensures var r := WeightByCategory(es, categoryMap, waterVolumeLiters);
      var water := WaterWeightInGrams(waterVolumeLiters);
      && Ids(r) == (if r == [] then {} else CountedKeys(es) + (if water > 0.0 then {WaterKey} else {}))
      && (r != [] && water > 0.0 ==> exists b :: b in r && b.id == WaterKey && b.weight == water)
  {
    var water := WaterWeightInGrams(waterVolumeLiters);
    var total := TripTotal(es, waterVolumeLiters);
    if total != 0.0 {
      var bs := Unsorted(es, categoryMap, water);
      var r := SortByWeight(bs);
      BucketIds(es, categoryMap, water);
      SortKeepsIds(bs);
      SortMembers(bs);
      assert bs[0] in r;
      if water > 0.0 {
        var b :| b in bs && b.id == WaterKey && b.weight == water;
        assert b in r;
      }
    }
  }

  /**
   * Without a category keyed 'carried-water', the bucket weights add up to
   * the trip total and the percentages to 100.
   */
  lemma {:induction false} WeightByCategorySums(es: seq<TripItemEntry>, categoryMap: map<string, Category>, waterVolumeLiters: real)
    requires NoWaterKeyCollision(es)
    ensures var r := WeightByCategory(es, categoryMap, waterVolumeLiters);
      && SumBucketWeights(r) == TripTotal(es, waterVolumeLiters)
      && (r != [] ==> SumPercentages(r) == 100.0)
  {
    var water := WaterWeightInGrams(waterVolumeLiters);
    var total := TripTotal(es, waterVolumeLiters);
    if total != 0.0 {
      BucketSums(es, categoryMap, water);
      SortSums(Unsorted(es, categoryMap, water));
    }
  }

  /** `getWeightByCategory`: accumulate per category in one pass, add water, then bucket and sort. */
  method GetWeightByCategory(tripItems: seq<TripItemEntry>, categoryMap: map<string, Category>, waterVolumeLiters: real)
    returns (r: seq<CategoryBucket>)
    ensures r == WeightByCategory(tripItems, categoryMap, waterVolumeLiters)
  {
    var categoryWeights: Weights := [];
    var totalWeight := 0.0;
    for i := 0 to |tripItems|
      invariant categoryWeights == Accumulate(tripItems[..i])
      invariant totalWeight == Subtotal(tripItems[..i], Everything)
    {
      var tripItem := tripItems[i];
      assert tripItems[..i + 1][..i] == tripItems[..i];
      assert tripItems[..i + 1][i] == tripItem;
      if !Counts(tripItem) {
        continue;
      }
      var itemWeight := ItemWeight(tripItem);
      totalWeight := totalWeight + itemWeight;
      var categoryId := CategoryKey(tripItem);
      categoryWeights := AddTo(categoryWeights, categoryId, itemWeight);
    }
    assert tripItems[..|tripItems|] == tripItems;
    var waterWeight := WaterWeightInGrams(waterVolumeLiters);
    if waterWeight > 0.0 {
      totalWeight := totalWeight + waterWeight;
      categoryWeights := Put(categoryWeights, WaterKey, waterWeight);
    }
    if totalWeight == 0.0 {
      return [];
    }
    var buckets := ToBuckets(categoryWeights, categoryMap, totalWeight);
    assert buckets == Unsorted(tripItems, categoryMap, waterWeight);
    r := SortByWeight(buckets);
  }
}
