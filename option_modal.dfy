/** The option picker a customer opens on a menu: one chosen option per
    group (required groups start on their first option and cannot be
    cleared), a quantity of at least one, the running price, and the
    hand-over of the chosen line to the cart. */
module OptionModal {
  import opened Base
  import opened Catalog
  import Cart

  // ---------------------------------------------------------------------
  // The selection record
  // ---------------------------------------------------------------------

  /** The `Record<number, number>` from group id to chosen option id, as its
      entries: objects enumerate integer keys in ascending order, so the
      entries are kept strictly increasing by group id. */
  type Selection = seq<(int, int)>

  predicate Ordered(s: Selection) {
    forall i, j | 0 <= i < j < |s| :: s[i].0 < s[j].0
  }

  /** `s[groupId]`, None for undefined. */
  function Lookup(s: Selection, groupId: int): Option<int> {
    if s == [] then None
    else if s[0].0 == groupId then Some(s[0].1)
    else Lookup(s[1..], groupId)
  }

  /** `{ ...s, [groupId]: optionId }`. */
  function Put(s: Selection, groupId: int, optionId: int): Selection {
    if s == [] then [(groupId, optionId)]
    else if groupId < s[0].0 then [(groupId, optionId)] + s
    else if groupId == s[0].0 then [(groupId, optionId)] + s[1..]
    else [s[0]] + Put(s[1..], groupId, optionId)
  }

  /** `delete next[groupId]`. */
  function Remove(s: Selection, groupId: int): Selection {
    if s == [] then []
    else if s[0].0 == groupId then Remove(s[1..], groupId)
    else [s[0]] + Remove(s[1..], groupId)
  }

  lemma OrderedTail(s: Selection)
    requires Ordered(s) && s != []
    ensures Ordered(s[1..])
  {
    forall i, j | 0 <= i < j < |s| - 1 ensures s[1..][i].0 < s[1..][j].0 {
      assert s[1..][i] == s[i + 1] && s[1..][j] == s[j + 1];
    }
  }

  /** Setting a key keeps the entries ordered, maps that key to the new
      option and leaves every other key as it was. */
  lemma {:induction false} PutSpec(s: Selection, groupId: int, optionId: int)
    requires Ordered(s)
    ensures Ordered(Put(s, groupId, optionId))
    ensures forall x | x in Put(s, groupId, optionId) :: x == (groupId, optionId) || x in s
    ensures forall k :: Lookup(Put(s, groupId, optionId), k) == if k == groupId then Some(optionId) else Lookup(s, k)
  {
    if s != [] && groupId > s[0].0 {
      OrderedTail(s);
      PutSpec(s[1..], groupId, optionId);
      var t := Put(s[1..], groupId, optionId);
      forall x | x in t ensures s[0].0 < x.0 {
        if x in s[1..] {
          var i :| 0 <= i < |s[1..]| && s[1..][i] == x;
          assert x == s[i + 1];
        }
      }
      forall x | x in s[1..] ensures x in s {
        var i :| 0 <= i < |s[1..]| && s[1..][i] == x;
        assert x == s[i + 1];
      }
    } else if s != [] && groupId == s[0].0 {
      PutReplaces(s, groupId, optionId);
    } else if s != [] {
      PutPrepends(s, groupId, optionId);
    }
  }

  /** Setting the first entry's key replaces that entry. */
  lemma PutReplaces(s: Selection, groupId: int, optionId: int)
    requires Ordered(s) && s != [] && groupId == s[0].0
    ensures Ordered(Put(s, groupId, optionId))
    ensures forall k :: Lookup(Put(s, groupId, optionId), k) == if k == groupId then Some(optionId) else Lookup(s, k)
  {
    OrderedTail(s);
    var t := [(groupId, optionId)] + s[1..];
    assert Put(s, groupId, optionId) == t && t[1..] == s[1..];
    forall i, j | 0 <= i < j < |t| ensures t[i].0 < t[j].0 {
      assert t[j] == s[j];
      if i > 0 {
        assert t[i] == s[i];
      }
    }
  }

  /** A key below the first entry's goes in front. */
  lemma PutPrepends(s: Selection, groupId: int, optionId: int)
    requires Ordered(s) && s != [] && groupId < s[0].0
    ensures Ordered(Put(s, groupId, optionId))
    ensures forall k :: Lookup(Put(s, groupId, optionId), k) == if k == groupId then Some(optionId) else Lookup(s, k)
  {
    var t := [(groupId, optionId)] + s;
    assert Put(s, groupId, optionId) == t && t[1..] == s;
    forall i, j | 0 <= i < j < |t| ensures t[i].0 < t[j].0 {
      assert t[j] == s[j - 1];
      if i > 0 {
        assert t[i] == s[i - 1];
      }
    }
  }

  /** Deleting a key keeps the entries ordered, makes that key undefined and
      leaves every other key as it was. */
  lemma {:induction false} RemoveSpec(s: Selection, groupId: int)
    requires Ordered(s)
    ensures Ordered(Remove(s, groupId))
    ensures forall x | x in Remove(s, groupId) :: x in s && x.0 != groupId
    ensures forall k :: Lookup(Remove(s, groupId), k) == if k == groupId then None else Lookup(s, k)
  {
    if s != [] {
      OrderedTail(s);
      RemoveSpec(s[1..], groupId);
      var t := Remove(s[1..], groupId);
      forall x | x in t ensures s[0].0 < x.0 && x in s {
        var i :| 0 <= i < |s[1..]| && s[1..][i] == x;
        assert x == s[i + 1];
      }
      if s[0].0 == groupId {
        forall k ensures Lookup(t, k) == if k == groupId then None else Lookup(s, k) {
        }
      } else {
        forall k ensures Lookup([s[0]] + t, k) == if k == groupId then None else Lookup(s, k) {
          assert ([s[0]] + t)[1..] == t;
        }
      }
    }
  }

  // ---------------------------------------------------------------------
  // Rules of the picker
  // ---------------------------------------------------------------------

  /** Group ids are primary keys: no two groups of a menu share one. */
  predicate DistinctGroupIds(groups: seq<OptionGroup>) {
    forall i, j | 0 <= i < j < |groups| :: groups[i].id != groups[j].id
  }

  /** A group the picker opens on its first option. */
  predicate Preselected(g: OptionGroup) {
    g.required && |g.options| > 0
  }

  /** The initial record: each required group with options set to its first
      option, later groups overwriting earlier ones of the same id. */
  function Preselect(groups: seq<OptionGroup>): Selection {
    if groups == [] then []
    else
      var s := Preselect(groups[..|groups| - 1]);
      var g := groups[|groups| - 1];
      if Preselected(g) then Put(s, g.id, g.options[0].id) else s
  }

  /** `menu.optionGroups.find((g) => g.id === groupId)?.required`. */
  predicate IsRequired(groups: seq<OptionGroup>, groupId: int) {
    var g := FindGroup(groups, groupId);
    g.Some? && g.value.required
  }

  /** `handleSelectOption`: choosing the current option again clears it
      unless its group is required; any other choice replaces the group's. */
  function SelectToggle(groups: seq<OptionGroup>, s: Selection, groupId: int, optionId: int): Selection {
    if Lookup(s, groupId) == Some(optionId) then
      if !IsRequired(groups, groupId) then Remove(s, groupId) else s
    else Put(s, groupId, optionId)
  }

  /** `allRequiredSelected`: every required group has a chosen option. */
  predicate AllRequiredSelected(groups: seq<OptionGroup>, s: Selection) {
    forall i | 0 <= i < |groups| && groups[i].required :: Lookup(s, groups[i].id).Some?
  }

  /** `optionsPrice`: the modifiers of the chosen options that resolve in the
      menu; an entry that does not resolve adds 0. */
  function OptionsPrice(groups: seq<OptionGroup>, s: Selection): int {
    if s == [] then 0
    else
      (match Resolve(groups, s[0].0, s[0].1)
       case Some(p) => p.1.priceModifier
       case None => 0)
      + OptionsPrice(groups, s[1..])
  }

  /** `totalPrice`. */
  function TotalPrice(menu: Menu, s: Selection, quantity: int): int {
    (menu.price + OptionsPrice(menu.optionGroups, s)) * quantity
  }

  /** The cart's record of a chosen option; the handler passes no
      translations, so they are undefined. */
  function Chosen(p: (OptionGroup, OptionItem)): SelectedOption {
    SelectedOption(p.0.id, p.1.id, p.0.name, None, p.1.name, None, p.1.priceModifier)
  }

  /** The options `handleAddToCart` collects: one per resolvable entry, in
      entry order. */
  function ChosenOptions(groups: seq<OptionGroup>, s: Selection): seq<SelectedOption> {
    if s == [] then []
    else
      var rest := ChosenOptions(groups, s[1..]);
      match Resolve(groups, s[0].0, s[0].1)
      case Some(p) => [Chosen(p)] + rest
      case None => rest
  }

  /** The line `handleAddToCart` gives `addItem`: the menu's own name, no
      name translations, the chosen quantity and the base unit price. */
  function ModalItem(menu: Menu, s: Selection, quantity: int): CartItem {
    CartItem(menu.id, menu.name, None, menu.imageUrl, quantity, menu.price,
             ChosenOptions(menu.optionGroups, s), 0)
  }

  // ---------------------------------------------------------------------
  // The picker
  // ---------------------------------------------------------------------

  /** The loop of `handleAddToCart`: each entry whose group and option are
      found contributes one selected option, in entry order. */
  method CollectOptions(groups: seq<OptionGroup>, selected: Selection) returns (options: seq<SelectedOption>)
    ensures options == ChosenOptions(groups, selected)
  {
    options := [];
    for i := 0 to |selected|
      invariant options + ChosenOptions(groups, selected[i..]) == ChosenOptions(groups, selected)
    {
      assert selected[i..][1..] == selected[i + 1..];
      var entry := selected[i];
      var group := FindGroup(groups, entry.0);
      if group.Some? {
        var option := FindOption(group.value.options, entry.1);
        if option.Some? {
          options := options + [Chosen((group.value, option.value))];
        }
      }
    }
    assert selected[|selected|..] == [];
  }

  class Picker {
    const menu: Menu
    var selected: Selection
    var quantity: int

    ghost predicate Valid()
      reads this
    {
      Ordered(selected) && quantity >= 1
    }

    /** Opens on quantity 1 with the required groups preselected. */
    constructor (m: Menu)
      ensures Valid() && menu == m && quantity == 1
      ensures selected == Preselect(m.optionGroups)
    {
      menu := m;
      quantity := 1;
      var initial: Selection := [];
      for i := 0 to |m.optionGroups|
        invariant Ordered(initial) && initial == Preselect(m.optionGroups[..i])
      {
        var group := m.optionGroups[i];
        assert m.optionGroups[..i + 1][..i] == m.optionGroups[..i];
        if group.required && |group.options| > 0 {
          PutSpec(initial, group.id, group.options[0].id);
          initial := Put(initial, group.id, group.options[0].id);
        }
      }
      assert m.optionGroups[..|m.optionGroups|] == m.optionGroups;
      selected := initial;
    }

    method SelectOption(groupId: int, optionId: int)
      requires Valid()
      modifies this
      ensures Valid() && quantity == old(quantity)
      ensures selected == SelectToggle(menu.optionGroups, old(selected), groupId, optionId)
    {
      SelectToggleSpec(menu.optionGroups, selected, groupId, optionId);
      if Lookup(selected, groupId) == Some(optionId) {
        var group := FindGroup(menu.optionGroups, groupId);
        if !(group.Some? && group.value.required) {
          selected := Remove(selected, groupId);
        }
      } else {
        selected := Put(selected, groupId, optionId);
      }
    }

    /** The minus button: never below 1. */
    method Decrement()
      requires Valid()
      modifies this
      ensures Valid() && selected == old(selected)
      ensures quantity == if old(quantity) > 1 then old(quantity) - 1 else 1
    {
      quantity := if quantity - 1 > 1 then quantity - 1 else 1;
    }

    /** The plus button. */
    method Increment()
      requires Valid()
      modifies this
      ensures Valid() && selected == old(selected)
      ensures quantity == old(quantity) + 1
    {
      quantity := quantity + 1;
    }

    /** `handleAddToCart`: collect the resolvable chosen options in entry
        order and append one line through the always-append path. Its only
        caller is the add button, which is disabled until every required
        group has a selection. */
    method AddToCart(cart: Cart.CartStore)
      requires Valid() && cart.Valid()
      requires AllRequiredSelected(menu.optionGroups, selected)
      modifies cart
      ensures cart.Valid() && cart.orderType == old(cart.orderType)
      ensures cart.items == old(cart.items) + [Cart.WithQuantity(ModalItem(menu, selected, quantity), quantity)]
    {
      var options := CollectOptions(menu.optionGroups, selected);
      cart.AddItem(CartItem(menu.id, menu.name, None, menu.imageUrl, quantity, menu.price, options, 0));
    }
  }

  // ---------------------------------------------------------------------
  // Properties
  // ---------------------------------------------------------------------

  /** Initially exactly the required groups that have options are selected,
      each (ids being distinct) on its first option. */
  lemma {:induction false} PreselectSpec(groups: seq<OptionGroup>)
    ensures Ordered(Preselect(groups))
    ensures forall k :: Lookup(Preselect(groups), k).Some? <==>
              exists i | 0 <= i < |groups| :: Preselected(groups[i]) && groups[i].id == k
    ensures DistinctGroupIds(groups) ==>
              forall i | 0 <= i < |groups| && Preselected(groups[i]) ::
                Lookup(Preselect(groups), groups[i].id) == Some(groups[i].options[0].id)
  {
    if groups != [] {
      var init := groups[..|groups| - 1];
      var g := groups[|groups| - 1];
      PreselectSpec(init);
      assert forall i | 0 <= i < |init| :: init[i] == groups[i];
      if Preselected(g) {
        PutSpec(Preselect(init), g.id, g.options[0].id);
      }
      forall k ensures Lookup(Preselect(groups), k).Some? <==>
                 exists i | 0 <= i < |groups| :: Preselected(groups[i]) && groups[i].id == k
      {
        if exists i | 0 <= i < |groups| :: Preselected(groups[i]) && groups[i].id == k {
          var i :| 0 <= i < |groups| && Preselected(groups[i]) && groups[i].id == k;
          if i < |init| {
            assert Preselected(init[i]) && init[i].id == k;
          }
        }
      }
    }
  }

  /** Right after opening, the add button is enabled exactly when every
      required group has at least one option. */
  lemma PreselectComplete(groups: seq<OptionGroup>)
    requires DistinctGroupIds(groups)
    ensures AllRequiredSelected(groups, Preselect(groups)) <==>
              forall i | 0 <= i < |groups| && groups[i].required :: |groups[i].options| > 0
  {
    PreselectSpec(groups);
    if AllRequiredSelected(groups, Preselect(groups)) {
      forall i | 0 <= i < |groups| && groups[i].required ensures |groups[i].options| > 0 {
        assert Lookup(Preselect(groups), groups[i].id).Some?;
        var j :| 0 <= j < |groups| && Preselected(groups[j]) && groups[j].id == groups[i].id;
        assert i == j;
      }
    }
  }

  /** A choice touches only its own group: a new choice is recorded; the
      current choice again clears a group that is not required and changes
      nothing in a required one. */
  lemma SelectToggleSpec(groups: seq<OptionGroup>, s: Selection, groupId: int, optionId: int)
    requires Ordered(s)
    ensures Ordered(SelectToggle(groups, s, groupId, optionId))
    ensures forall k | k != groupId :: Lookup(SelectToggle(groups, s, groupId, optionId), k) == Lookup(s, k)
    ensures Lookup(s, groupId) != Some(optionId) ==>
              Lookup(SelectToggle(groups, s, groupId, optionId), groupId) == Some(optionId)
    ensures Lookup(s, groupId) == Some(optionId) && !IsRequired(groups, groupId) ==>
              Lookup(SelectToggle(groups, s, groupId, optionId), groupId) == None
    ensures Lookup(s, groupId) == Some(optionId) && IsRequired(groups, groupId) ==>
              SelectToggle(groups, s, groupId, optionId) == s
  {
    PutSpec(s, groupId, optionId);
    RemoveSpec(s, groupId);
  }

  /** Once every required group is chosen, no choice can make the add button
      disabled again. */
  lemma SelectKeepsAllRequired(groups: seq<OptionGroup>, s: Selection, groupId: int, optionId: int)
    requires Ordered(s) && DistinctGroupIds(groups) && AllRequiredSelected(groups, s)
    ensures AllRequiredSelected(groups, SelectToggle(groups, s, groupId, optionId))
  {
    SelectToggleSpec(groups, s, groupId, optionId);
    var r := SelectToggle(groups, s, groupId, optionId);
    forall i | 0 <= i < |groups| && groups[i].required ensures Lookup(r, groups[i].id).Some? {
      if groups[i].id == groupId && Lookup(s, groupId) == Some(optionId) {
        var f := FindGroup(groups, groupId);
        var j :| 0 <= j < |groups| && groups[j] == f.value && forall l | 0 <= l < j :: groups[l].id != groupId;
        assert i == j;
      }
    }
  }

  /** Every collected option comes from a resolvable entry. */
  lemma {:induction false} ChosenOptionsSound(groups: seq<OptionGroup>, s: Selection)
    ensures forall x | x in ChosenOptions(groups, s) ::
              exists i | 0 <= i < |s| :: Resolve(groups, s[i].0, s[i].1).Some?
                                         && x == Chosen(Resolve(groups, s[i].0, s[i].1).value)
  {
    if s != [] {
      var t := s[1..];
      ChosenOptionsSound(groups, t);
      forall x | x in ChosenOptions(groups, s)
        ensures exists i | 0 <= i < |s| :: Resolve(groups, s[i].0, s[i].1).Some?
                                           && x == Chosen(Resolve(groups, s[i].0, s[i].1).value)
      {
        if x in ChosenOptions(groups, t) {
          var i :| 0 <= i < |t| && Resolve(groups, t[i].0, t[i].1).Some?
                   && x == Chosen(Resolve(groups, t[i].0, t[i].1).value);
          assert t[i] == s[i + 1];
        }
      }
    }
  }

  /** Every resolvable entry is collected. */
  lemma {:induction false} ChosenOptionsComplete(groups: seq<OptionGroup>, s: Selection)
    ensures forall i | 0 <= i < |s| && Resolve(groups, s[i].0, s[i].1).Some? ::
              Chosen(Resolve(groups, s[i].0, s[i].1).value) in ChosenOptions(groups, s)
  {
    if s != [] {
      var t := s[1..];
      ChosenOptionsComplete(groups, t);
      forall i | 0 <= i < |s| && Resolve(groups, s[i].0, s[i].1).Some?
        ensures Chosen(Resolve(groups, s[i].0, s[i].1).value) in ChosenOptions(groups, s)
      {
        if i > 0 {
          assert s[i] == t[i - 1];
        }
      }
    }
  }

  /** At most one option per group is collected, in increasing group order. */
  lemma {:induction false} ChosenOptionsOrdered(groups: seq<OptionGroup>, s: Selection)
    requires Ordered(s)
    ensures forall k, l | 0 <= k < l < |ChosenOptions(groups, s)| ::
              ChosenOptions(groups, s)[k].groupId < ChosenOptions(groups, s)[l].groupId
  {
    if s != [] {
      var t := s[1..];
      OrderedTail(s);
      ChosenOptionsOrdered(groups, t);
      var rest := ChosenOptions(groups, t);
      ChosenAfterHead(groups, s);
      var r := ChosenOptions(groups, s);
      if Resolve(groups, s[0].0, s[0].1).Some? {
        forall k, l | 0 <= k < l < |r| ensures r[k].groupId < r[l].groupId {
          assert r[l] == rest[l - 1];
          if k > 0 {
            assert r[k] == rest[k - 1];
          } else {
            assert rest[l - 1] in rest;
          }
        }
      }
    }
  }

  /** What the later entries contribute lies in groups above the first's. */
  lemma ChosenAfterHead(groups: seq<OptionGroup>, s: Selection)
    requires Ordered(s) && s != []
    ensures forall x | x in ChosenOptions(groups, s[1..]) :: s[0].0 < x.groupId
  {
    var t := s[1..];
    ChosenOptionsSound(groups, t);
    forall x | x in ChosenOptions(groups, t) ensures s[0].0 < x.groupId {
      var i :| 0 <= i < |t| && Resolve(groups, t[i].0, t[i].1).Some?
               && x == Chosen(Resolve(groups, t[i].0, t[i].1).value);
      assert t[i] == s[i + 1];
    }
  }

  /** The price on the add button is what the cart charges for the line it
      adds: only resolvable choices count, each with its modifier. */
  lemma {:induction false} OptionsPriceIsCartPrice(groups: seq<OptionGroup>, s: Selection)
    ensures OptionsPrice(groups, s) == SumOf(ChosenOptions(groups, s), Cart.Modifier)
  {
    if s != [] {
      OptionsPriceIsCartPrice(groups, s[1..]);
      var rest := ChosenOptions(groups, s[1..]);
      match Resolve(groups, s[0].0, s[0].1)
      case Some(p) =>
        assert ([Chosen(p)] + rest)[1..] == rest;
      case None =>
    }
  }

  /** The line added to the cart has the button's total as its subtotal. */
  lemma AddedSubtotalIsTotalPrice(menu: Menu, s: Selection, quantity: int)
    ensures Cart.WithQuantity(ModalItem(menu, s, quantity), quantity).subtotal == TotalPrice(menu, s, quantity)
  {
    OptionsPriceIsCartPrice(menu.optionGroups, s);
  }
}
