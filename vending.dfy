/** The vending-machine shop screen: every active menu is expanded into one
    card per combination of its required options (the Cartesian product of
    the required groups), the cards are laid out in rows of four, and each
    card shows how many of its variant are in the cart. */
module Vending {
  import opened Base
  import opened Catalog
  import Cart

  /** One slot of the machine: a menu with one fixed choice per required group. */
  datatype VendingCard = VendingCard(
    menuId: int,
    menuName: string,
    menuNameTranslations: Translations,
    imageUrl: Option<string>,
    unitPrice: int,
    selectedOptions: seq<SelectedOption>,
    optionLabel: string,
    totalPrice: int)

  // ---------------------------------------------------------------------
  // Combinations of required options
  // ---------------------------------------------------------------------

  /** `optionGroups.filter((g) => g.required)`. */
  function RequiredGroups(groups: seq<OptionGroup>): (r: seq<OptionGroup>)
    ensures |r| <= |groups|
    ensures forall i | 0 <= i < |r| :: r[i].required && r[i] in groups
    ensures forall i | 0 <= i < |groups| && groups[i].required :: groups[i] in r
  {
    if groups == [] then []
    else
      var rest := RequiredGroups(groups[1..]);
      assert forall i | 1 <= i < |groups| :: groups[i] == groups[1..][i - 1];
      if groups[0].required then [groups[0]] + rest else rest
  }

  /** One group is kept iff it is required. */
  lemma RequiredGroupsSingle(g: OptionGroup)
    ensures RequiredGroups([g]) == if g.required then [g] else []
  {
    assert [g][1..] == [];
  }

  /** The filter distributes over concatenation, so the kept groups appear
      once each and in their original order. */
  lemma {:induction false} RequiredGroupsAppend(a: seq<OptionGroup>, b: seq<OptionGroup>)
    ensures RequiredGroups(a + b) == RequiredGroups(a) + RequiredGroups(b)
  {
    if a == [] {
      assert a + b == b;
    } else {
      assert (a + b)[0] == a[0];
      assert (a + b)[1..] == a[1..] + b;
      RequiredGroupsAppend(a[1..], b);
    }
  }

  /** The selected option recorded for choosing o in group g. */
  function Pick(g: OptionGroup, o: OptionItem): SelectedOption {
    SelectedOption(g.id, o.id, g.name, g.nameTranslations, o.name, o.nameTranslations, o.priceModifier)
  }

  /** One partial combination extended by each option of g, in option order. */
  function ExtendOne(c: seq<SelectedOption>, g: OptionGroup): (r: seq<seq<SelectedOption>>)
    ensures |r| == |g.options|
    ensures forall j | 0 <= j < |g.options| :: r[j] == c + [Pick(g, g.options[j])]
  {
    seq(|g.options|, j requires 0 <= j < |g.options| => c + [Pick(g, g.options[j])])
  }

  /** Every partial combination, in order, each extended by every option of g. */
  function Extend(combos: seq<seq<SelectedOption>>, g: OptionGroup): seq<seq<SelectedOption>> {
    if combos == [] then []
    else Extend(combos[..|combos| - 1], g) + ExtendOne(combos[|combos| - 1], g)
  }

  /** The Cartesian product of the groups' options, earlier groups varying slowest. */
  function Combos(groups: seq<OptionGroup>): seq<seq<SelectedOption>> {
    if groups == [] then [[]]
    else Extend(Combos(groups[..|groups| - 1]), groups[|groups| - 1])
  }

  /** The number of combinations the groups admit. */
  function Product(groups: seq<OptionGroup>): nat {
    if groups == [] then 1
    else Product(groups[..|groups| - 1]) * |groups[|groups| - 1].options|
  }

  /** s is the choice of one option of g. */
  predicate IsPick(s: SelectedOption, g: OptionGroup) {
    exists j | 0 <= j < |g.options| :: s == Pick(g, g.options[j])
  }

  /** c chooses exactly one option from each group, in group order. */
  predicate PicksFrom(c: seq<SelectedOption>, groups: seq<OptionGroup>) {
    |c| == |groups| && forall i | 0 <= i < |c| :: IsPick(c[i], groups[i])
  }

  // ---------------------------------------------------------------------
  // Cards
  // ---------------------------------------------------------------------

  /** The localized option names of a combination, in its order. */
  function OptionLabels(opts: seq<SelectedOption>, lang: string): (r: seq<string>)
    ensures |r| == |opts|
  {
    seq(|opts|, i requires 0 <= i < |opts| => GetTranslation(opts[i].optionNameTranslations, lang, opts[i].optionName))
  }

  /** The card of one combination: base price plus its modifiers, options
      labelled by their localized names joined with " / ". */
  function MakeCard(menu: Menu, lang: string, combo: seq<SelectedOption>): VendingCard {
    VendingCard(menu.id, GetTranslation(menu.nameTranslations, lang, menu.name), menu.nameTranslations,
                menu.imageUrl, menu.price, combo, Join(OptionLabels(combo, lang), " / "),
                menu.price + SumOf(combo, Cart.Modifier))
  }

  /** The cards of one menu: one per combination of its required groups. */
  function CardsOf(menu: Menu, lang: string): seq<VendingCard> {
    var combos := Combos(RequiredGroups(menu.optionGroups));
    seq(|combos|, i requires 0 <= i < |combos| => MakeCard(menu, lang, combos[i]))
  }

  /** `buildCombinations`: a plain card for a menu without required groups,
      otherwise the product built group by group with nested loops. */
  method BuildCombinations(menu: Menu, lang: string) returns (cards: seq<VendingCard>)
    ensures cards == CardsOf(menu, lang)
  {
    var required := RequiredGroups(menu.optionGroups);
    var menuName := GetTranslation(menu.nameTranslations, lang, menu.name);
    if |required| == 0 {
      NoRequiredGroupsOneCard(menu, lang);
      cards := [VendingCard(menu.id, menuName, menu.nameTranslations, menu.imageUrl, menu.price, [], "", menu.price)];
      return;
    }
    var combos: seq<seq<SelectedOption>> := [[]];
    var gi := 0;
    while gi < |required|
      invariant 0 <= gi <= |required|
      invariant combos == Combos(required[..gi])
    {
      CombosSnoc(required, gi);
      combos := ExtendLoop(combos, required[gi]);
      gi := gi + 1;
    }
    assert required[..gi] == required;
    cards := seq(|combos|, i requires 0 <= i < |combos| => MakeCard(menu, lang, combos[i]));
  }

  lemma CombosSnoc(groups: seq<OptionGroup>, k: nat)
    requires k < |groups|
    ensures Combos(groups[..k + 1]) == Extend(Combos(groups[..k]), groups[k])
  {
    assert groups[..k + 1][..k] == groups[..k];
  }

  lemma ExtendSnoc(combos: seq<seq<SelectedOption>>, g: OptionGroup, k: nat)
    requires k < |combos|
    ensures Extend(combos[..k + 1], g) == Extend(combos[..k], g) + ExtendOne(combos[k], g)
  {
    assert combos[..k + 1][..k] == combos[..k];
  }

  /** One round of the product: every combination so far, each followed by
      every option of the group (`next.push([...combo, opt])`). */
  method ExtendLoop(combos: seq<seq<SelectedOption>>, group: OptionGroup) returns (next: seq<seq<SelectedOption>>)
    ensures next == Extend(combos, group)
  {
    next := [];
    var ci := 0;
    while ci < |combos|
      invariant 0 <= ci <= |combos|
      invariant next == Extend(combos[..ci], group)
    {
      var combo := combos[ci];
      ExtendSnoc(combos, group, ci);
      var oi := 0;
      while oi < |group.options|
        invariant 0 <= oi <= |group.options|
        invariant next == Extend(combos[..ci], group) + ExtendOne(combo, group)[..oi]
      {
        assert ExtendOne(combo, group)[..oi + 1] == ExtendOne(combo, group)[..oi] + [combo + [Pick(group, group.options[oi])]];
        next := next + [combo + [Pick(group, group.options[oi])]];
        oi := oi + 1;
      }
      assert ExtendOne(combo, group)[..oi] == ExtendOne(combo, group);
      ci := ci + 1;
    }
    assert combos[..ci] == combos;
  }

  /** Without required groups a menu gets exactly one card: no options, an
      empty label and the menu's own price. */
  lemma NoRequiredGroupsOneCard(menu: Menu, lang: string)
    requires RequiredGroups(menu.optionGroups) == []
    ensures CardsOf(menu, lang) ==
      [VendingCard(menu.id, GetTranslation(menu.nameTranslations, lang, menu.name), menu.nameTranslations,
                   menu.imageUrl, menu.price, [], "", menu.price)]
  {
    assert Combos([]) == [[]];
    assert OptionLabels([], lang) == [];
  }

  /** The cards of a list of menus, inactive menus contributing none. */
  function MenuCards(menus: seq<Menu>, lang: string): seq<VendingCard> {
    if menus == [] then []
    else
      var m := menus[|menus| - 1];
      MenuCards(menus[..|menus| - 1], lang) + (if m.isActive then CardsOf(m, lang) else [])
  }

  /** The cards of all categories, in category order and then menu order. */
  function CategoryCards(categories: seq<Category>, lang: string): seq<VendingCard> {
    if categories == [] then []
    else CategoryCards(categories[..|categories| - 1], lang) + MenuCards(categories[|categories| - 1].menus, lang)
  }

  /** The `cards` memo: every active menu's combinations, pushed in order. */
  method AllCards(categories: seq<Category>, lang: string) returns (cards: seq<VendingCard>)
    ensures cards == CategoryCards(categories, lang)
  {
    cards := [];
    for ci := 0 to |categories|
      invariant cards == CategoryCards(categories[..ci], lang)
    {
      assert categories[..ci + 1][..ci] == categories[..ci];
      var built := MenusLoop(categories[ci].menus, lang);
      cards := cards + built;
    }
    assert categories[..|categories|] == categories;
  }

  /** The inner loop of `cards` over one category's menus. */
  method MenusLoop(menus: seq<Menu>, lang: string) returns (cards: seq<VendingCard>)
    ensures cards == MenuCards(menus, lang)
  {
    cards := [];
    for mi := 0 to |menus|
      invariant cards == MenuCards(menus[..mi], lang)
    {
      var menu := menus[mi];
      assert menus[..mi + 1][..mi] == menus[..mi];
      if menu.isActive {
        var built := BuildCombinations(menu, lang);
        cards := cards + built;
      }
    }
    assert menus[..|menus|] == menus;
  }

  // ---------------------------------------------------------------------
  // Rows of four
  // ---------------------------------------------------------------------

  const ROW_SIZE: nat := 4

  function Flatten<T>(rows: seq<seq<T>>): seq<T> {
    if rows == [] then [] else Flatten(rows[..|rows| - 1]) + rows[|rows| - 1]
  }

  /** The label slots a row leaves empty: `4 - rowCards.length`. */
  function EmptySlots<T>(row: seq<T>): int {
    ROW_SIZE - |row|
  }

  /** `chunks`: consecutive slices of ROW_SIZE cards; the rows read back as
      the cards, every row but the last is full and none is empty. */
  method Chunks<T>(cards: seq<T>) returns (rows: seq<seq<T>>)
    ensures Flatten(rows) == cards
    ensures |rows| == (|cards| + ROW_SIZE - 1) / ROW_SIZE
    ensures forall k | 0 <= k < |rows| :: 0 <= EmptySlots(rows[k]) < ROW_SIZE
    ensures forall k | 0 <= k < |rows| - 1 :: EmptySlots(rows[k]) == 0
  {
    rows := [];
    var i := 0;
    while i < |cards|
      invariant i == ROW_SIZE * |rows| && i <= |cards| + ROW_SIZE - 1
      invariant Flatten(rows) == cards[..if i < |cards| then i else |cards|]
      invariant forall k | 0 <= k < |rows| :: 0 < |rows[k]| <= ROW_SIZE
      invariant forall k | 0 <= k < |rows| - 1 :: |rows[k]| == ROW_SIZE
      invariant |rows| > 0 && i <= |cards| ==> |rows[|rows| - 1]| == ROW_SIZE
    {
      var end := if i + ROW_SIZE < |cards| then i + ROW_SIZE else |cards|;
      var row := cards[i..end];
      assert cards[..end] == cards[..i] + row;
      rows := rows + [row];
      i := i + ROW_SIZE;
    }
    assert cards[..|cards|] == cards;
  }

  // ---------------------------------------------------------------------
  // The badge count and the tap
  // ---------------------------------------------------------------------

  /** What tapping a card hands to `addOrIncrementItem`; quantity and subtotal
      are set by the store. */
  function CardItem(card: VendingCard): CartItem {
    CartItem(card.menuId, card.menuName, card.menuNameTranslations, card.imageUrl, 0,
             card.unitPrice, card.selectedOptions, 0)
  }

  /** `getCount`: the quantity of the first cart line of the card's menu whose
      sorted (groupId, optionId) key equals the card's; it is the store's
      own `getItemCount` for the card's variant. */
  function GetCount(items: seq<CartItem>, card: VendingCard): (n: int)
    ensures n == Cart.ItemCount(items, card.menuId, Cart.OptionsKey(card.selectedOptions))
  {
    if items == [] then 0
    else if items[0].menuId == card.menuId
            && Cart.OptionsKey(items[0].selectedOptions) == Cart.OptionsKey(card.selectedOptions)
    then items[0].quantity
    else GetCount(items[1..], card)
  }

  // ---------------------------------------------------------------------
  // Properties
  // ---------------------------------------------------------------------

  lemma {:induction false} ExtendLength(combos: seq<seq<SelectedOption>>, g: OptionGroup)
    ensures |Extend(combos, g)| == |combos| * |g.options|
  {
    if combos != [] {
      ExtendLength(combos[..|combos| - 1], g);
      assert |combos| * |g.options| == (|combos| - 1) * |g.options| + |g.options|;
    }
  }

  /** There are as many combinations as the product of the option counts. */
  lemma {:induction false} CombosCount(groups: seq<OptionGroup>)
    ensures |Combos(groups)| == Product(groups)
  {
    if groups != [] {
      CombosCount(groups[..|groups| - 1]);
      ExtendLength(Combos(groups[..|groups| - 1]), groups[|groups| - 1]);
    }
  }

  /** The product vanishes exactly when some group has no options. */
  lemma {:induction false} ProductZero(groups: seq<OptionGroup>)
    ensures Product(groups) == 0 <==> exists i | 0 <= i < |groups| :: |groups[i].options| == 0
  {
    if groups != [] {
      var init := groups[..|groups| - 1];
      ProductZero(init);
      assert forall i | 0 <= i < |init| :: init[i] == groups[i];
    }
  }

  /** Entry i * n + j of an extension is combination i followed by option j:
      the newest group varies fastest. */
  lemma {:induction false} ExtendIndex(combos: seq<seq<SelectedOption>>, g: OptionGroup, i: nat, j: nat)
    requires i < |combos| && j < |g.options|
    ensures i * |g.options| + j < |Extend(combos, g)|
    ensures Extend(combos, g)[i * |g.options| + j] == combos[i] + [Pick(g, g.options[j])]
  {
    var n := |g.options|;
    var init := combos[..|combos| - 1];
    var last := combos[|combos| - 1];
    assert Extend(combos, g) == Extend(init, g) + ExtendOne(last, g);
    ExtendLength(init, g);
    var at := i * n + j;
    if i == |combos| - 1 {
      assert at == |Extend(init, g)| + j;
      assert Extend(combos, g)[at] == ExtendOne(last, g)[j];
    } else {
      ExtendIndex(init, g, i, j);
      assert Extend(combos, g)[at] == Extend(init, g)[at];
      assert init[i] == combos[i];
    }
  }

  /** Adding a group multiplies the combinations: combination i of the
      earlier groups with option j of the new group sits at i * n + j. */
  lemma CombosIndex(groups: seq<OptionGroup>, g: OptionGroup, i: nat, j: nat)
    requires i < |Combos(groups)| && j < |g.options|
    ensures i * |g.options| + j < |Combos(groups + [g])|
    ensures Combos(groups + [g])[i * |g.options| + j] == Combos(groups)[i] + [Pick(g, g.options[j])]
  {
    assert (groups + [g])[..|groups|] == groups;
    ExtendIndex(Combos(groups), g, i, j);
  }

  lemma {:induction false} ExtendMembers(combos: seq<seq<SelectedOption>>, g: OptionGroup)
    ensures forall c | c in Extend(combos, g) :: |c| > 0 && c[..|c| - 1] in combos && IsPick(c[|c| - 1], g)
  {
    if combos != [] {
      var init := combos[..|combos| - 1];
      ExtendMembers(init, g);
      forall c | c in Extend(combos, g)
        ensures |c| > 0 && c[..|c| - 1] in combos && IsPick(c[|c| - 1], g)
      {
        if c in Extend(init, g) {
          assert c[..|c| - 1] in init;
        } else {
          var last := combos[|combos| - 1];
          var j :| 0 <= j < |g.options| && c == ExtendOne(last, g)[j];
          assert c[..|c| - 1] == last;
        }
      }
    }
  }

  /** Every combination takes exactly one option from each group, in group order. */
  lemma {:induction false} CombosPick(groups: seq<OptionGroup>)
    ensures forall c | c in Combos(groups) :: PicksFrom(c, groups)
  {
    if groups != [] {
      var init := groups[..|groups| - 1];
      var g := groups[|groups| - 1];
      CombosPick(init);
      ExtendMembers(Combos(init), g);
      assert init + [g] == groups;
      assert Combos(groups) == Extend(Combos(init), g);
      forall c | c in Extend(Combos(init), g) ensures PicksFrom(c, init + [g]) {
        assert PicksFrom(c[..|c| - 1], init);
        PicksFromSnoc(c, init, g);
      }
    }
  }

  /** A pick from the earlier groups followed by a pick from g is a pick
      from all of them, and conversely. */
  lemma PicksFromSnoc(c: seq<SelectedOption>, init: seq<OptionGroup>, g: OptionGroup)
    requires |c| > 0
    ensures PicksFrom(c, init + [g]) <==> PicksFrom(c[..|c| - 1], init) && IsPick(c[|c| - 1], g)
  {
    var p := c[..|c| - 1];
    var groups := init + [g];
    assert forall i | 0 <= i < |p| :: p[i] == c[i];
    assert forall i | 0 <= i < |init| :: groups[i] == init[i];
    if PicksFrom(p, init) && IsPick(c[|c| - 1], g) {
      forall i | 0 <= i < |c| ensures IsPick(c[i], groups[i]) {
        if i < |c| - 1 {
          assert c[i] == p[i];
        }
      }
    }
  }

  /** Every way of taking one option from each group is among the combinations. */
  lemma {:induction false} CombosComplete(groups: seq<OptionGroup>)
    ensures forall c | PicksFrom(c, groups) :: c in Combos(groups)
  {
    if groups != [] {
      var init := groups[..|groups| - 1];
      var g := groups[|groups| - 1];
      CombosComplete(init);
      assert init + [g] == groups;
      forall c | PicksFrom(c, groups) ensures c in Combos(groups) {
        PicksFromSnoc(c, init, g);
        CombosCompleteStep(init, g, c);
      }
    } else {
      forall c | PicksFrom(c, groups) ensures c in Combos(groups) {
        assert c == [];
      }
    }
  }

  lemma CombosCompleteStep(init: seq<OptionGroup>, g: OptionGroup, c: seq<SelectedOption>)
    requires |c| > 0 && c[..|c| - 1] in Combos(init) && IsPick(c[|c| - 1], g)
    ensures c in Combos(init + [g])
  {
    var p := c[..|c| - 1];
    var i :| 0 <= i < |Combos(init)| && Combos(init)[i] == p;
    var j :| 0 <= j < |g.options| && c[|c| - 1] == Pick(g, g.options[j]);
    CombosIndex(init, g, i, j);
    assert c == p + [c[|c| - 1]];
  }

  /** A menu has as many cards as the product of its required groups' option
      counts, so none when a required group has no options; each card
      chooses exactly one option of every required group, in order, and no
      option of any other group; every such choice has a card. */
  lemma MenuCardsShape(menu: Menu, lang: string)
    ensures var req := RequiredGroups(menu.optionGroups);
            && |CardsOf(menu, lang)| == Product(req)
            && (Product(req) == 0 <==> exists i | 0 <= i < |req| :: |req[i].options| == 0)
            && (forall c | c in CardsOf(menu, lang) :: PicksFrom(c.selectedOptions, req))
            && (forall combo | PicksFrom(combo, req) ::
                  exists k | 0 <= k < |CardsOf(menu, lang)| :: CardsOf(menu, lang)[k].selectedOptions == combo)
  {
    var req := RequiredGroups(menu.optionGroups);
    var combos := Combos(req);
    CombosCount(req);
    ProductZero(req);
    CombosPick(req);
    CombosComplete(req);
    forall c | c in CardsOf(menu, lang) ensures PicksFrom(c.selectedOptions, req) {
      var k :| 0 <= k < |combos| && c == CardsOf(menu, lang)[k];
      assert combos[k] in combos;
    }
    forall combo | PicksFrom(combo, req)
      ensures exists k | 0 <= k < |CardsOf(menu, lang)| :: CardsOf(menu, lang)[k].selectedOptions == combo
    {
      var k :| 0 <= k < |combos| && combos[k] == combo;
      assert CardsOf(menu, lang)[k].selectedOptions == combo;
    }
  }

  /** Each card sells the menu at its base unit price; its total is the base
      price plus its options' modifiers, which is exactly what the cart
      charges per unit for the line the card adds; its label names its
      options in combination order. */
  lemma CardPrices(menu: Menu, lang: string)
    ensures forall c | c in CardsOf(menu, lang) ::
              && c.menuId == menu.id
              && c.unitPrice == menu.price
              && c.totalPrice == menu.price + SumOf(c.selectedOptions, Cart.Modifier)
              && c.totalPrice == Cart.UnitLinePrice(CardItem(c))
              && c.optionLabel == Join(OptionLabels(c.selectedOptions, lang), " / ")
  {
  }

  /** Every card comes from an active menu of one of the categories. */
  lemma {:induction false} MenuCardsActive(menus: seq<Menu>, lang: string)
    ensures forall c | c in MenuCards(menus, lang) ::
              exists m | 0 <= m < |menus| :: menus[m].isActive && menus[m].id == c.menuId
  {
    if menus != [] {
      var init := menus[..|menus| - 1];
      MenuCardsActive(init, lang);
      CardPrices(menus[|menus| - 1], lang);
      forall c | c in MenuCards(menus, lang)
        ensures exists m | 0 <= m < |menus| :: menus[m].isActive && menus[m].id == c.menuId
      {
        if c in MenuCards(init, lang) {
          var m :| 0 <= m < |init| && init[m].isActive && init[m].id == c.menuId;
          assert menus[m] == init[m];
        } else {
          assert menus[|menus| - 1].isActive && menus[|menus| - 1].id == c.menuId;
        }
      }
    }
  }

  /** The cards of two runs of menus are those of the first run, then those
      of the second. */
  lemma {:induction false} MenuCardsAppend(a: seq<Menu>, b: seq<Menu>, lang: string)
    ensures MenuCards(a + b, lang) == MenuCards(a, lang) + MenuCards(b, lang)
  {
    if b == [] {
      assert a + b == a;
    } else {
      assert (a + b)[..|a + b| - 1] == a + b[..|b| - 1];
      MenuCardsAppend(a, b[..|b| - 1], lang);
    }
  }

  /** Category order is kept: the cards of two runs of categories are those
      of the first run, then those of the second. */
  lemma {:induction false} CategoryCardsAppend(a: seq<Category>, b: seq<Category>, lang: string)
    ensures CategoryCards(a + b, lang) == CategoryCards(a, lang) + CategoryCards(b, lang)
  {
    if b == [] {
      assert a + b == a;
    } else {
      var b0, last := b[..|b| - 1], b[|b| - 1];
      assert (a + b)[..|a + b| - 1] == a + b0 && (a + b)[|a + b| - 1] == last;
      CategoryCardsAppend(a, b0, lang);
      assert CategoryCards(a + b, lang) == CategoryCards(a + b0, lang) + MenuCards(last.menus, lang);
      assert CategoryCards(b, lang) == CategoryCards(b0, lang) + MenuCards(last.menus, lang);
    }
  }

  /** Tapping a card raises its badge by exactly one. */
  lemma TapRaisesCount(items: seq<CartItem>, card: VendingCard)
    ensures GetCount(Cart.AddOrIncrement(items, CardItem(card)), card) == GetCount(items, card) + 1
  {
    Cart.AddOrIncrementCount(items, CardItem(card));
  }

  /** The remove button on a card clears its badge. */
  lemma RemoveClearsCount(items: seq<CartItem>, card: VendingCard)
    ensures GetCount(Cart.RemoveMatching(items, card.menuId, Cart.OptionsKey(card.selectedOptions)), card) == 0
  {
    Cart.RemoveMatchingNone(items, card.menuId, Cart.OptionsKey(card.selectedOptions));
  }
}
