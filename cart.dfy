/** The customer's cart: an ordered list of lines plus the chosen order type.
    Lines are added by two policies (always append, or merge with the line of
    the same variant), removed by position or by variant, and summed into
    the totals shown at checkout. */
module Cart {
  import opened Base
  import opened Catalog

  // ---------------------------------------------------------------------
  // The variant key
  // ---------------------------------------------------------------------

  /** The (groupId, optionId) pairs of a selection, sorted; equal keys mean
      the same variant. */
  type VariantKey = seq<(int, int)>

  /** The comparator `a.groupId - b.groupId || a.optionId - b.optionId`. */
  predicate PairLe(a: (int, int), b: (int, int)) {
    a.0 < b.0 || (a.0 == b.0 && a.1 <= b.1)
  }

  predicate SortedPairs(s: seq<(int, int)>) {
    forall i, j | 0 <= i < j < |s| :: PairLe(s[i], s[j])
  }

  /** The identifying pairs of a selection, in its own order. */
  function Pairs(opts: seq<SelectedOption>): (r: seq<(int, int)>)
    ensures |r| == |opts|
    ensures forall i | 0 <= i < |opts| :: r[i] == (opts[i].groupId, opts[i].optionId)
  {
    seq(|opts|, i requires 0 <= i < |opts| => (opts[i].groupId, opts[i].optionId))
  }

  function InsertPair(p: (int, int), s: seq<(int, int)>): seq<(int, int)> {
    if s == [] then [p]
    else if PairLe(p, s[0]) then [p] + s
    else [s[0]] + InsertPair(p, s[1..])
  }

  /** Insertion into a sorted sequence keeps it sorted and adds one element. */
  lemma {:induction false} InsertPairSorted(p: (int, int), s: seq<(int, int)>)
    requires SortedPairs(s)
    ensures SortedPairs(InsertPair(p, s))
    ensures multiset(InsertPair(p, s)) == multiset(s) + multiset{p}
  {
    if s == [] {
    } else if PairLe(p, s[0]) {
      forall i | 0 <= i < |s| ensures PairLe(p, s[i]) {
        if i > 0 {
          assert PairLe(s[0], s[i]);
        }
      }
      SortedCons(p, s);
    } else {
      SortedTail(s);
      InsertPairSorted(p, s[1..]);
      var t := InsertPair(p, s[1..]);
      forall i | 0 <= i < |t| ensures PairLe(s[0], t[i]) {
        assert t[i] in multiset(t);
        if t[i] != p {
          assert t[i] in multiset(s[1..]);
          SortedHeadLeast(s, t[i]);
        }
      }
      SortedCons(s[0], t);
      assert InsertPair(p, s) == [s[0]] + t;
      MultisetTail(s);
    }
  }

  lemma SortedCons(x: (int, int), t: seq<(int, int)>)
    requires SortedPairs(t) && forall i | 0 <= i < |t| :: PairLe(x, t[i])
    ensures SortedPairs([x] + t)
  {
    var s := [x] + t;
    forall i, j | 0 <= i < j < |s| ensures PairLe(s[i], s[j]) {
      assert s[j] == t[j - 1];
      if i > 0 {
        assert s[i] == t[i - 1];
      }
    }
  }

  /** The head of a sorted sequence is below every element of it. */
  lemma SortedHeadLeast(s: seq<(int, int)>, x: (int, int))
    requires SortedPairs(s) && x in multiset(s)
    ensures PairLe(s[0], x)
  {
    var j :| 0 <= j < |s| && s[j] == x;
    if j > 0 {
      assert PairLe(s[0], s[j]);
    }
  }

  lemma MultisetTail(s: seq<(int, int)>)
    requires s != []
    ensures multiset(s) == multiset{s[0]} + multiset(s[1..])
    ensures multiset(s[1..]) == multiset(s) - multiset{s[0]}
  {
    assert s == [s[0]] + s[1..];
  }

  function SortPairs(s: seq<(int, int)>): seq<(int, int)> {
    if s == [] then [] else InsertPair(s[0], SortPairs(s[1..]))
  }

  lemma {:induction false} SortPairsSorted(s: seq<(int, int)>)
    ensures SortedPairs(SortPairs(s))
    ensures multiset(SortPairs(s)) == multiset(s)
  {
    if s != [] {
      SortPairsSorted(s[1..]);
      InsertPairSorted(s[0], SortPairs(s[1..]));
      assert s == [s[0]] + s[1..];
    }
  }

  /** `optionsKey`: the selection's (groupId, optionId) pairs in sorted order.
      Names and price modifiers play no part. */
  function OptionsKey(opts: seq<SelectedOption>): VariantKey {
    SortPairs(Pairs(opts))
  }

  /** The key is sorted and holds exactly the selection's pairs. */
  lemma OptionsKeySorted(opts: seq<SelectedOption>)
    ensures SortedPairs(OptionsKey(opts))
    ensures multiset(OptionsKey(opts)) == multiset(Pairs(opts))
  {
    SortPairsSorted(Pairs(opts));
  }

  /** Two sorted sequences with the same elements are the same sequence. */
  lemma {:induction false} SortedUnique(a: seq<(int, int)>, b: seq<(int, int)>)
    requires SortedPairs(a) && SortedPairs(b) && multiset(a) == multiset(b)
    ensures a == b
  {
    if a != [] {
      assert |b| == |multiset(b)| && b != [];
      var x, y := a[0], b[0];
      var ta, tb := a[1..], b[1..];
      SortedHeadLeast(a, y);
      SortedHeadLeast(b, x);
      PairLeAntisymmetric(x, y);
      MultisetTail(a);
      MultisetTail(b);
      assert multiset(ta) == multiset(tb);
      SortedTail(a);
      SortedTail(b);
      SortedUnique(ta, tb);
      assert a == [x] + ta && b == [y] + tb;
    } else {
      assert |b| == |multiset(b)|;
    }
  }

  lemma PairLeAntisymmetric(x: (int, int), y: (int, int))
    requires PairLe(x, y) && PairLe(y, x)
    ensures x == y
  {
  }

  lemma SortedTail(s: seq<(int, int)>)
    requires SortedPairs(s) && s != []
    ensures SortedPairs(s[1..])
  {
    forall i, j | 0 <= i < j < |s| - 1 ensures PairLe(s[1..][i], s[1..][j]) {
      assert s[1..][i] == s[i + 1] && s[1..][j] == s[j + 1];
    }
  }

  /** Two selections have the same key exactly when they hold the same
      (groupId, optionId) pairs, counted with multiplicity, in any order. */
  lemma OptionsKeyMatch(a: seq<SelectedOption>, b: seq<SelectedOption>)
    ensures OptionsKey(a) == OptionsKey(b) <==> multiset(Pairs(a)) == multiset(Pairs(b))
  {
    OptionsKeySorted(a);
    OptionsKeySorted(b);
    if multiset(Pairs(a)) == multiset(Pairs(b)) {
      SortedUnique(OptionsKey(a), OptionsKey(b));
    }
  }

  // ---------------------------------------------------------------------
  // Prices of a line
  // ---------------------------------------------------------------------

  function Modifier(o: SelectedOption): int { o.priceModifier }
  function Quantity(l: CartItem): int { l.quantity }
  function Subtotal(l: CartItem): int { l.subtotal }

  /** The price of one unit of a line: base price plus every option's modifier. */
  function UnitLinePrice(l: CartItem): int {
    l.unitPrice + SumOf(l.selectedOptions, Modifier)
  }

  /** `calcSubtotal`: the line's unit price with modifiers, times its quantity. */
  function CalcSubtotal(l: CartItem): int {
    UnitLinePrice(l) * l.quantity
  }

  /** The line with a new quantity and the subtotal recomputed for it. */
  function WithQuantity(l: CartItem, q: int): (r: CartItem)
    ensures r.quantity == q && r.subtotal == CalcSubtotal(r)
    ensures r.(subtotal := l.subtotal, quantity := l.quantity) == l
  {
    var t := l.(quantity := q);
    t.(subtotal := CalcSubtotal(t))
  }

  /** The invariant every stored line keeps. */
  predicate Consistent(l: CartItem) {
    l.subtotal == CalcSubtotal(l)
  }

  /** Raising a line's quantity by one adds one unit price to its subtotal. */
  lemma IncrementSubtotal(l: CartItem)
    requires Consistent(l)
    ensures WithQuantity(l, l.quantity + 1).subtotal == l.subtotal + UnitLinePrice(l)
  {
  }

  // ---------------------------------------------------------------------
  // Matching lines by variant
  // ---------------------------------------------------------------------

  predicate Matches(l: CartItem, menuId: int, key: VariantKey) {
    l.menuId == menuId && OptionsKey(l.selectedOptions) == key
  }

  /** `findIndex`: the index of the first line of the variant, or -1. */
  function FindMatch(items: seq<CartItem>, menuId: int, key: VariantKey): (r: int)
    ensures -1 <= r < |items|
    ensures r >= 0 ==> Matches(items[r], menuId, key)
    ensures r >= 0 ==> forall j | 0 <= j < r :: !Matches(items[j], menuId, key)
    ensures r == -1 ==> forall j | 0 <= j < |items| :: !Matches(items[j], menuId, key)
  {
    if items == [] then -1
    else if Matches(items[0], menuId, key) then 0
    else
      var k := FindMatch(items[1..], menuId, key);
      assert forall j | 1 <= j < |items| :: items[j] == items[1..][j - 1];
      if k == -1 then -1 else k + 1
  }

  /** `getItemCount`: the quantity of the first line of the variant, 0 when
      no line matches. */
  function ItemCount(items: seq<CartItem>, menuId: int, key: VariantKey): (n: int)
    ensures (forall j | 0 <= j < |items| :: !Matches(items[j], menuId, key)) ==> n == 0
    ensures forall j | 0 <= j < |items| && Matches(items[j], menuId, key)
              && (forall i | 0 <= i < j :: !Matches(items[i], menuId, key)) :: n == items[j].quantity
  {
    var k := FindMatch(items, menuId, key);
    if k >= 0 then items[k].quantity else 0
  }

  /** At most one line per variant: what merging alone keeps true. */
  predicate DistinctVariants(items: seq<CartItem>) {
    forall i, j | 0 <= i < j < |items| ::
      !Matches(items[j], items[i].menuId, OptionsKey(items[i].selectedOptions))
  }

  // ---------------------------------------------------------------------
  // The operations on the list of lines
  // ---------------------------------------------------------------------

  /** `addOrIncrementItem` on the list: bump the first line of the variant in
      place, or append the item with quantity 1. */
  function AddOrIncrement(items: seq<CartItem>, item: CartItem): seq<CartItem> {
    var k := FindMatch(items, item.menuId, OptionsKey(item.selectedOptions));
    if k >= 0 then items[k := WithQuantity(items[k], items[k].quantity + 1)]
    else items + [WithQuantity(item, 1)]
  }

  /** `removeByMatch` on the list: keep exactly the lines not of the variant. */
  function RemoveMatching(items: seq<CartItem>, menuId: int, key: VariantKey): seq<CartItem> {
    if items == [] then []
    else if Matches(items[0], menuId, key) then RemoveMatching(items[1..], menuId, key)
    else [items[0]] + RemoveMatching(items[1..], menuId, key)
  }

  /** `updateQuantity` on the list: a no-op for an index with no line. */
  function SetQuantity(items: seq<CartItem>, index: int, q: int): (r: seq<CartItem>)
    ensures !(0 <= index < |items|) ==> r == items
    ensures 0 <= index < |items| ==>
      && |r| == |items| && r[index].quantity == q && Consistent(r[index])
      && r[index].(quantity := items[index].quantity, subtotal := items[index].subtotal) == items[index]
      && forall j | 0 <= j < |items| && j != index :: r[j] == items[j]
  {
    if 0 <= index < |items| then items[index := WithQuantity(items[index], q)] else items
  }

  // ---------------------------------------------------------------------
  // Properties
  // ---------------------------------------------------------------------

  /** Merging either bumps the first line of the variant in place (length and
      order unchanged, nothing else touched) or appends one line of quantity 1. */
  lemma AddOrIncrementShape(items: seq<CartItem>, item: CartItem)
    ensures var r := AddOrIncrement(items, item);
            var k := FindMatch(items, item.menuId, OptionsKey(item.selectedOptions));
            && (k >= 0 ==>
                 && |r| == |items| && r[k].quantity == items[k].quantity + 1
                 && Consistent(r[k])
                 && r[k].(quantity := items[k].quantity, subtotal := items[k].subtotal) == items[k]
                 && forall j | 0 <= j < |items| && j != k :: r[j] == items[j])
            && (k < 0 ==>
                 && |r| == |items| + 1 && r[..|items|] == items
                 && r[|items|].quantity == 1 && Consistent(r[|items|])
                 && r[|items|].(quantity := item.quantity, subtotal := item.subtotal) == item)
  {
  }

  /** Merging raises the badge count of the item's variant by exactly one. */
  lemma AddOrIncrementCount(items: seq<CartItem>, item: CartItem)
    ensures var key := OptionsKey(item.selectedOptions);
            ItemCount(AddOrIncrement(items, item), item.menuId, key) == ItemCount(items, item.menuId, key) + 1
  {
    var key := OptionsKey(item.selectedOptions);
    var r := AddOrIncrement(items, item);
    var k := FindMatch(items, item.menuId, key);
    if k >= 0 {
      assert Matches(r[k], item.menuId, key);
      assert forall j | 0 <= j < k :: r[j] == items[j];
    } else {
      assert Matches(r[|items|], item.menuId, key);
      assert forall j | 0 <= j < |items| :: r[j] == items[j];
    }
  }

  /** Merging leaves the badge count of every other variant unchanged. */
  lemma AddOrIncrementOtherCount(items: seq<CartItem>, item: CartItem, menuId: int, key: VariantKey)
    requires menuId != item.menuId || key != OptionsKey(item.selectedOptions)
    ensures ItemCount(AddOrIncrement(items, item), menuId, key) == ItemCount(items, menuId, key)
  {
    var r := AddOrIncrement(items, item);
    var k := FindMatch(items, item.menuId, OptionsKey(item.selectedOptions));
    assert forall j | 0 <= j < |items| :: Matches(r[j], menuId, key) == Matches(items[j], menuId, key);
    if k < 0 {
      assert !Matches(r[|items|], menuId, key);
    }
    var m := FindMatch(items, menuId, key);
    if m >= 0 {
      assert m != k;
    }
  }

  /** Merging adds one to the item count. */
  lemma AddOrIncrementItems(items: seq<CartItem>, item: CartItem)
    ensures SumOf(AddOrIncrement(items, item), Quantity) == SumOf(items, Quantity) + 1
  {
    var k := FindMatch(items, item.menuId, OptionsKey(item.selectedOptions));
    if k >= 0 {
      SumOfUpdate(items, k, WithQuantity(items[k], items[k].quantity + 1), Quantity);
    } else {
      SumOfAppend(items, [WithQuantity(item, 1)], Quantity);
    }
  }

  /** Merging adds one unit price to the amount: that of the line bumped
      (when its subtotal was consistent), or that of the item appended. */
  lemma AddOrIncrementAmount(items: seq<CartItem>, item: CartItem)
    requires var k := FindMatch(items, item.menuId, OptionsKey(item.selectedOptions));
             k >= 0 ==> Consistent(items[k])
    ensures var k := FindMatch(items, item.menuId, OptionsKey(item.selectedOptions));
            SumOf(AddOrIncrement(items, item), Subtotal) ==
              SumOf(items, Subtotal) + (if k >= 0 then UnitLinePrice(items[k]) else UnitLinePrice(item))
  {
    var k := FindMatch(items, item.menuId, OptionsKey(item.selectedOptions));
    if k >= 0 {
      BumpAmount(items, k);
      assert AddOrIncrement(items, item) == items[k := WithQuantity(items[k], items[k].quantity + 1)];
    } else {
      AppendAmount(items, item);
    }
  }

  lemma AppendAmount(items: seq<CartItem>, item: CartItem)
    ensures SumOf(items + [WithQuantity(item, 1)], Subtotal) == SumOf(items, Subtotal) + UnitLinePrice(item)
  {
    SumOfAppend(items, [WithQuantity(item, 1)], Subtotal);
  }

  lemma BumpAmount(items: seq<CartItem>, k: nat)
    requires k < |items| && Consistent(items[k])
    ensures SumOf(items[k := WithQuantity(items[k], items[k].quantity + 1)], Subtotal)
            == SumOf(items, Subtotal) + UnitLinePrice(items[k])
  {
    IncrementSubtotal(items[k]);
    SumOfUpdate(items, k, WithQuantity(items[k], items[k].quantity + 1), Subtotal);
  }

  /** Merging never creates a second line for a variant. */
  lemma AddOrIncrementDistinct(items: seq<CartItem>, item: CartItem)
    requires DistinctVariants(items)
    ensures DistinctVariants(AddOrIncrement(items, item))
  {
    var r := AddOrIncrement(items, item);
    var k := FindMatch(items, item.menuId, OptionsKey(item.selectedOptions));
    assert forall j | 0 <= j < |items| :: r[j].menuId == items[j].menuId
                                        && r[j].selectedOptions == items[j].selectedOptions;
  }

  /** No line of the variant survives removal, not even a second one. */
  lemma {:induction false} RemoveMatchingNone(items: seq<CartItem>, menuId: int, key: VariantKey)
    ensures forall x | x in RemoveMatching(items, menuId, key) :: x in items && !Matches(x, menuId, key)
    ensures ItemCount(RemoveMatching(items, menuId, key), menuId, key) == 0
  {
    if items != [] {
      RemoveMatchingNone(items[1..], menuId, key);
    }
  }

  /** Every line not of the variant survives, and removal distributes over
      concatenation, so the survivors keep their order. */
  lemma {:induction false} RemoveMatchingAppend(a: seq<CartItem>, b: seq<CartItem>, menuId: int, key: VariantKey)
    ensures RemoveMatching(a + b, menuId, key) == RemoveMatching(a, menuId, key) + RemoveMatching(b, menuId, key)
  {
    if a == [] {
      assert a + b == b;
    } else {
      assert (a + b)[1..] == a[1..] + b;
      RemoveMatchingAppend(a[1..], b, menuId, key);
    }
  }

  /** With no line of the variant, removal is a no-op. */
  lemma {:induction false} RemoveMatchingNoOp(items: seq<CartItem>, menuId: int, key: VariantKey)
    requires forall j | 0 <= j < |items| :: !Matches(items[j], menuId, key)
    ensures RemoveMatching(items, menuId, key) == items
  {
    if items != [] {
      assert forall j | 0 <= j < |items[1..]| :: items[1..][j] == items[j + 1];
      RemoveMatchingNoOp(items[1..], menuId, key);
    }
  }

  /** Every line that is not of the variant is kept. */
  lemma {:induction false} RemoveMatchingKeeps(items: seq<CartItem>, menuId: int, key: VariantKey)
    ensures forall x | x in items && !Matches(x, menuId, key) :: x in RemoveMatching(items, menuId, key)
  {
    if items != [] {
      RemoveMatchingKeeps(items[1..], menuId, key);
      assert forall x | x in items :: x == items[0] || x in items[1..];
    }
  }

  /** In a cart with one line per variant, removing by variant is removing
      the index where that variant's line stands. */
  lemma {:induction false} RemoveMatchingDistinct(items: seq<CartItem>, menuId: int, key: VariantKey)
    requires DistinctVariants(items)
    requires FindMatch(items, menuId, key) >= 0
    ensures RemoveMatching(items, menuId, key) == RemoveAt(items, FindMatch(items, menuId, key))
  {
    var k := FindMatch(items, menuId, key);
    var rest := items[1..];
    if k == 0 {
      NoLaterMatch(items, menuId, key);
      RemoveMatchingNoOp(rest, menuId, key);
    } else {
      DistinctTail(items);
      assert FindMatch(rest, menuId, key) == k - 1;
      RemoveMatchingDistinct(rest, menuId, key);
      assert items[..k] + items[k + 1..] == [items[0]] + (rest[..k - 1] + rest[k..]);
    }
  }

  /** In a cart with one line per variant, nothing after the first line
      shares its variant. */
  lemma NoLaterMatch(items: seq<CartItem>, menuId: int, key: VariantKey)
    requires DistinctVariants(items) && items != [] && Matches(items[0], menuId, key)
    ensures forall j | 0 <= j < |items| - 1 :: !Matches(items[1..][j], menuId, key)
  {
    forall j | 0 <= j < |items| - 1 ensures !Matches(items[1..][j], menuId, key) {
      assert items[1..][j] == items[j + 1];
    }
  }

  lemma DistinctTail(items: seq<CartItem>)
    requires DistinctVariants(items) && items != []
    ensures DistinctVariants(items[1..])
  {
    var rest := items[1..];
    forall i, j | 0 <= i < j < |rest|
      ensures !Matches(rest[j], rest[i].menuId, OptionsKey(rest[i].selectedOptions))
    {
      assert rest[i] == items[i + 1] && rest[j] == items[j + 1];
    }
  }

  /** Changing one line's quantity (zero included) keeps every line and moves
      the item count by the difference. */
  lemma SetQuantityTotals(items: seq<CartItem>, index: int, q: int)
    requires 0 <= index < |items|
    ensures |SetQuantity(items, index, q)| == |items|
    ensures SumOf(SetQuantity(items, index, q), Quantity) == SumOf(items, Quantity) - items[index].quantity + q
  {
    SumOfUpdate(items, index, WithQuantity(items[index], q), Quantity);
  }

  /** Removing a line subtracts its quantity and subtotal from the totals. */
  lemma RemoveAtTotals(items: seq<CartItem>, index: int)
    requires 0 <= index < |items|
    ensures SumOf(RemoveAt(items, index), Quantity) == SumOf(items, Quantity) - items[index].quantity
    ensures SumOf(RemoveAt(items, index), Subtotal) == SumOf(items, Subtotal) - items[index].subtotal
  {
    SumOfRemoveAt(items, index, Quantity);
    SumOfRemoveAt(items, index, Subtotal);
  }

  // ---------------------------------------------------------------------
  // The store
  // ---------------------------------------------------------------------

  datatype OrderType = DineIn | TakeOut

  /** The cart store: its `items` list and `orderType`, replaced by each action. */
  class CartStore {
    var orderType: Option<OrderType>
    var items: seq<CartItem>

    /** Every line's subtotal agrees with its quantity, price and options. */
    ghost predicate Valid()
      reads this
    {
      forall j | 0 <= j < |items| :: Consistent(items[j])
    }

    constructor ()
      ensures Valid() && items == [] && orderType == None
    {
      orderType := None;
      items := [];
    }

    method SetOrderType(t: Option<OrderType>)
      requires Valid()
      modifies this
      ensures Valid() && orderType == t && items == old(items)
    {
      orderType := t;
    }

    /** Always appends a new line, even when a line of the same variant exists. */
    method AddItem(item: CartItem)
      requires Valid()
      modifies this
      ensures Valid() && orderType == old(orderType)
      ensures items == old(items) + [WithQuantity(item, item.quantity)]
    {
      var subtotal := CalcSubtotal(item);
      items := items + [item.(subtotal := subtotal)];
    }

    method RemoveItem(index: int)
      requires Valid()
      modifies this
      ensures Valid() && orderType == old(orderType)
      ensures items == RemoveAt(old(items), index)
    {
      items := RemoveAt(items, index);
    }

    method UpdateQuantity(index: int, quantity: int)
      requires Valid()
      modifies this
      ensures Valid() && orderType == old(orderType)
      ensures items == SetQuantity(old(items), index, quantity)
    {
      if 0 <= index < |items| {
        items := items[index := WithQuantity(items[index], quantity)];
      }
    }

    method ClearCart()
      requires Valid()
      modifies this
      ensures Valid() && items == [] && orderType == None
    {
      items := [];
      orderType := None;
    }

    method AddOrIncrementItem(item: CartItem)
      requires Valid()
      modifies this
      ensures Valid() && orderType == old(orderType)
      ensures items == AddOrIncrement(old(items), item)
    {
      var key := OptionsKey(item.selectedOptions);
      var idx := FindMatch(items, item.menuId, key);
      if idx >= 0 {
        var newQty := items[idx].quantity + 1;
        items := items[idx := WithQuantity(items[idx], newQty)];
      } else {
        items := items + [WithQuantity(item, 1)];
      }
    }

    method RemoveByMatch(menuId: int, selectedOptions: seq<SelectedOption>)
      requires Valid()
      modifies this
      ensures Valid() && orderType == old(orderType)
      ensures items == RemoveMatching(old(items), menuId, OptionsKey(selectedOptions))
    {
      RemoveMatchingNone(items, menuId, OptionsKey(selectedOptions));
      items := RemoveMatching(items, menuId, OptionsKey(selectedOptions));
    }

    function GetItemCount(menuId: int, selectedOptions: seq<SelectedOption>): (n: int)
      reads this
      ensures n == ItemCount(items, menuId, OptionsKey(selectedOptions))
    {
      ItemCount(items, menuId, OptionsKey(selectedOptions))
    }

    /** The sum of the lines' subtotals; 0 for an empty cart. */
    function TotalAmount(): (n: int)
      reads this
      ensures items == [] ==> n == 0
      ensures n == SumOf(items, Subtotal)
    {
      SumOf(items, Subtotal)
    }

    /** The sum of the lines' quantities; 0 for an empty cart. */
    function TotalItems(): (n: int)
      reads this
      ensures items == [] ==> n == 0
      ensures n == SumOf(items, Quantity)
    {
      SumOf(items, Quantity)
    }
  }
}
