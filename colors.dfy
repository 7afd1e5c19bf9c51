/**
 * The category colour palette of `src/lib/constants/colors.js`: eighteen
 * colours and a fixed assignment order that spreads consecutive picks over
 * the colour wheel.
 */
module Colors {
  import opened Wrappers

  const CategoryColors: seq<string> := [
    "#FF0000", "#FF8700", "#FFD300", "#DEFF0A", "#A1FF0A", "#0AFF99",
    "#0AEFFF", "#147DF5", "#580AFF", "#BE0AFF", "#FF1493", "#FF4500",
    "#32CD32", "#00CED1", "#4169E1", "#9932CC", "#DC143C", "#20B2AA"
  ]

  const ColorAssignmentOrder: seq<int> := [0, 8, 5, 10, 13, 2, 15, 12, 1, 14, 9, 6, 16, 4, 7, 17, 3, 11]

  /** JavaScript's `%`: the remainder takes the sign of the dividend. */
  function JsRem(a: int, b: int): (r: int)
    requires b > 0
    ensures a >= 0 ==> r == a % b
    ensures a < 0 ==> -b < r <= 0 && (r == 0 <==> (-a) % b == 0)
  {
    if a >= 0 then a % b else -((-a) % b)
  }

  /**
   * `getCategoryColor(categoryCount)`. A negative count that is not a
   * multiple of 18 indexes the order array at a negative position, and the
   * source then yields `undefined`, modelled as `None`.
   */
  function GetCategoryColor(categoryCount: int): (c: Option<string>)
    ensures categoryCount >= 0 ==> c.Some? && c.value in CategoryColors
    ensures c.Some? <==> categoryCount >= 0 || (-categoryCount) % 18 == 0
  {
    var orderIndex := JsRem(categoryCount, |ColorAssignmentOrder|);
    if 0 <= orderIndex then
      var colorIndex := ColorAssignmentOrder[orderIndex];
      if 0 <= colorIndex < |CategoryColors| then Some(CategoryColors[colorIndex]) else None
    else None
  }

  /** The assignment repeats with the length of the order, 18. */
  lemma Periodic(n: nat)
    ensures GetCategoryColor(n + 18) == GetCategoryColor(n)
  {
    assert (n + 18) % 18 == n % 18;
  }

  /** The assignment order is a permutation of the palette's indices 0..17. */
  lemma OrderIsPermutation()
    ensures |ColorAssignmentOrder| == |CategoryColors| == 18
    ensures forall k :: 0 <= k < 18 ==> k in ColorAssignmentOrder
    ensures forall i, j :: 0 <= i < j < 18 ==> ColorAssignmentOrder[i] != ColorAssignmentOrder[j]
  {
    forall k | 0 <= k < 18 ensures k in ColorAssignmentOrder {
      assert ColorAssignmentOrder[0] == 0 && ColorAssignmentOrder[8] == 1 && ColorAssignmentOrder[5] == 2;
      assert ColorAssignmentOrder[16] == 3 && ColorAssignmentOrder[13] == 4 && ColorAssignmentOrder[2] == 5;
      assert ColorAssignmentOrder[11] == 6 && ColorAssignmentOrder[14] == 7 && ColorAssignmentOrder[1] == 8;
      assert ColorAssignmentOrder[10] == 9 && ColorAssignmentOrder[3] == 10 && ColorAssignmentOrder[17] == 11;
      assert ColorAssignmentOrder[7] == 12 && ColorAssignmentOrder[4] == 13 && ColorAssignmentOrder[9] == 14;
      assert ColorAssignmentOrder[6] == 15 && ColorAssignmentOrder[12] == 16 && ColorAssignmentOrder[15] == 17;
    }
  }

  /** The eighteen palette entries are pairwise different. */
  lemma PaletteDistinct()
    ensures forall i, j :: 0 <= i < j < |CategoryColors| ==> CategoryColors[i] != CategoryColors[j]
  {
  }

  /** The first eighteen categories all get different colours. */
  lemma FirstEighteenDistinct(i: nat, j: nat)
    requires i < j < 18
    ensures GetCategoryColor(i) != GetCategoryColor(j)
  {
    OrderIsPermutation();
    PaletteDistinct();
    assert i % 18 == i && j % 18 == j;
    var a, b := ColorAssignmentOrder[i], ColorAssignmentOrder[j];
    assert a != b;
    if a < b {
      assert CategoryColors[a] != CategoryColors[b];
    } else {
      assert CategoryColors[b] != CategoryColors[a];
    }
  }

  /** The first picks follow the declared order: red, then electric indigo. */
  lemma FirstPicks()
    ensures GetCategoryColor(0) == Some("#FF0000")
    ensures GetCategoryColor(1) == Some("#580AFF")
    ensures GetCategoryColor(18) == Some("#FF0000")
    ensures GetCategoryColor(-1) == None
  {
  }
}
