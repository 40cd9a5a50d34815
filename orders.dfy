/** Placing an order on the server: the request is validated, the order
    number is derived from the last order id, and every line is repriced
    from the stored menu, ignoring whatever the client believed the price
    to be. The menus the handler fetches are given as a map from id to menu. */
module Orders {
  import opened Base
  import opened Catalog
  import Cart

  /** A selection as the client sends it: ids only. */
  datatype OptionRef = OptionRef(groupId: int, optionId: int)

  /** One requested line; `selectedOptions` may be missing. */
  datatype LineRequest = LineRequest(menuId: int, quantity: int, selectedOptions: Option<seq<OptionRef>>)

  /** An option as stored on the order line: names and the price it added. */
  datatype StoredOption = StoredOption(group: string, option: string, price: int)

  datatype OrderItem = OrderItem(
    menuId: int,
    menuName: string,
    quantity: int,
    unitPrice: int,
    selectedOptions: seq<StoredOption>,
    subtotal: int)

  datatype Order = Order(orderNumber: string, totalAmount: int, language: string, items: seq<OrderItem>)

  /** 201 with the created order, or 400 VALIDATION_ERROR. */
  datatype PlaceResult = Created(order: Order) | ValidationError

  // ---------------------------------------------------------------------
  // The order number
  // ---------------------------------------------------------------------

  /** The last order's id plus one, or 1 when there is no order yet. */
  function NextNumber(lastOrderId: Option<nat>): (n: nat)
    ensures n >= 1
  {
    match lastOrderId
    case Some(id) => id + 1
    case None => 1
  }

  /** "A" and the next number, left-padded with zeros to three digits. */
  function OrderNumber(lastOrderId: Option<nat>): string {
    "A" + PadStart(Digits(NextNumber(lastOrderId)), 3, '0')
  }

  // ---------------------------------------------------------------------
  // Repricing
  // ---------------------------------------------------------------------

  function StoredPrice(o: StoredOption): int { o.price }
  function ItemSubtotal(i: OrderItem): int { i.subtotal }

  /** The options of a line that resolve in the menu's groups, in request
      order; the others are dropped. */
  function StoredOptions(groups: seq<OptionGroup>, sels: seq<OptionRef>): seq<StoredOption> {
    if sels == [] then []
    else
      var last := sels[|sels| - 1];
      StoredOptions(groups, sels[..|sels| - 1]) +
        match Resolve(groups, last.groupId, last.optionId)
        case Some(p) => [StoredOption(p.0.name, p.1.name, p.1.priceModifier)]
        case None => []
  }

  /** The stored unit price of a line: the menu's price plus the modifiers of
      its resolvable options. */
  function ItemPrice(menu: Menu, sels: seq<OptionRef>): int {
    menu.price + SumOf(StoredOptions(menu.optionGroups, sels), StoredPrice)
  }

  function PriceItem(menu: Menu, req: LineRequest): OrderItem {
    var sels := req.selectedOptions.GetOr([]);
    var price := ItemPrice(menu, sels);
    OrderItem(menu.id, menu.name, req.quantity, price, StoredOptions(menu.optionGroups, sels), price * req.quantity)
  }

  /** The order lines: each requested line with a known menu, repriced;
      lines whose menu is not found are skipped. */
  function PriceItems(reqs: seq<LineRequest>, menus: map<int, Menu>): seq<OrderItem> {
    if reqs == [] then []
    else
      var last := reqs[|reqs| - 1];
      PriceItems(reqs[..|reqs| - 1], menus) +
        (if last.menuId in menus then [PriceItem(menus[last.menuId], last)] else [])
  }

  /** `language || "ko"`. */
  function OrderLanguage(language: Option<string>): (r: string)
    ensures language.None? || language.value == "" ==> r == "ko"
    ensures language.Some? && language.value != "" ==> r == language.value
  {
    if language.None? || language.value == "" then "ko" else language.value
  }

  /** The order the handler creates for a non-empty request. */
  function ExpectedOrder(reqs: seq<LineRequest>, language: Option<string>, menus: map<int, Menu>,
                         lastOrderId: Option<nat>): Order
  {
    var items := PriceItems(reqs, menus);
    Order(OrderNumber(lastOrderId), SumOf(items, ItemSubtotal), OrderLanguage(language), items)
  }

  /** The body of the handler's loop for a line whose menu was found: start
      from the menu's price, add each resolvable option's modifier and
      record it, then multiply by the quantity. */
  method PriceLine(menu: Menu, item: LineRequest) returns (line: OrderItem)
    ensures line == PriceItem(menu, item)
  {
    var itemPrice := menu.price;
    var selectedOpts: seq<StoredOption> := [];
    var sels := item.selectedOptions.GetOr([]);
    for j := 0 to |sels|
      invariant selectedOpts == StoredOptions(menu.optionGroups, sels[..j])
      invariant itemPrice == menu.price + SumOf(selectedOpts, StoredPrice)
    {
      var sel := sels[j];
      StoredOptionsStep(menu.optionGroups, sels, j);
      var group := FindGroup(menu.optionGroups, sel.groupId);
      if group.Some? {
        var option := FindOption(group.value.options, sel.optionId);
        if option.Some? {
          var stored := StoredOption(group.value.name, option.value.name, option.value.priceModifier);
          SumOfAppend(selectedOpts, [stored], StoredPrice);
          SumOfSingle(stored, StoredPrice);
          itemPrice := itemPrice + option.value.priceModifier;
          selectedOpts := selectedOpts + [stored];
        }
      }
    }
    assert sels[..|sels|] == sels;
    var subtotal := itemPrice * item.quantity;
    line := OrderItem(menu.id, menu.name, item.quantity, itemPrice, selectedOpts, subtotal);
  }

  lemma StoredOptionsStep(groups: seq<OptionGroup>, sels: seq<OptionRef>, j: nat)
    requires j < |sels|
    ensures StoredOptions(groups, sels[..j + 1]) == StoredOptions(groups, sels[..j]) +
              match Resolve(groups, sels[j].groupId, sels[j].optionId)
              case Some(p) => [StoredOption(p.0.name, p.1.name, p.1.priceModifier)]
              case None => []
  {
    assert sels[..j + 1][..j] == sels[..j];
  }

  /** `POST /api/orders`: reject a missing or empty item list; otherwise
      reprice every line with a known menu and sum the subtotals. */
  method PlaceOrder(items: Option<seq<LineRequest>>, language: Option<string>, menus: map<int, Menu>,
                    lastOrderId: Option<nat>) returns (r: PlaceResult)
    ensures r.ValidationError? <==> items.None? || items.value == []
    ensures r.Created? ==> r.order == ExpectedOrder(items.value, language, menus, lastOrderId)
    ensures r.Created? ==> r.order.totalAmount == SumOf(r.order.items, ItemSubtotal)
  {
    if items.None? || |items.value| == 0 {
      return ValidationError;
    }
    var reqs := items.value;
    var nextNum := if lastOrderId.Some? then lastOrderId.value + 1 else 1;
    var orderNumber := "A" + PadStart(Digits(nextNum), 3, '0');
    var totalAmount := 0;
    var orderItems: seq<OrderItem> := [];
    for i := 0 to |reqs|
      invariant orderItems == PriceItems(reqs[..i], menus)
      invariant totalAmount == SumOf(orderItems, ItemSubtotal)
    {
      var item := reqs[i];
      assert reqs[..i + 1][..i] == reqs[..i];
      if item.menuId !in menus {
        continue;
      }
      var line := PriceLine(menus[item.menuId], item);
      var subtotal := line.subtotal;
      SumOfAppend(orderItems, [line], ItemSubtotal);
      totalAmount := totalAmount + subtotal;
      orderItems := orderItems + [line];
    }
    assert reqs[..|reqs|] == reqs;
    r := Created(Order(orderNumber, totalAmount, if language.None? || language.value == "" then "ko" else language.value,
                       orderItems));
  }

  // ---------------------------------------------------------------------
  // Properties
  // ---------------------------------------------------------------------

  lemma DigitsShort(n: nat)
    requires n < 1000
    ensures |Digits(n)| <= 3
  {
    if n >= 10 {
      assert Digits(n) == Digits(n / 10) + [DigitChar(n % 10)];
      if n / 10 >= 10 {
        assert Digits(n / 10) == Digits(n / 10 / 10) + [DigitChar(n / 10 % 10)];
      }
    }
  }

  /** The order number is "A" and at least three decimal digits that read
      back as the next number; exactly three while that number is below 1000. */
  lemma OrderNumberFormat(lastOrderId: Option<nat>)
    ensures var s := OrderNumber(lastOrderId);
            && |s| >= 4 && s[0] == 'A'
            && (forall i | 1 <= i < |s| :: IsDigit(s[i]))
            && ParseDigits(s[1..]) == NextNumber(lastOrderId)
            && (NextNumber(lastOrderId) < 1000 ==> |s| == 4)
  {
    var n := NextNumber(lastOrderId);
    var p := PadStart(Digits(n), 3, '0');
    var s := OrderNumber(lastOrderId);
    PaddedNumber(n);
    assert s[1..] == p;
    forall i | 1 <= i < |s| ensures IsDigit(s[i]) {
      assert s[i] == p[i - 1];
    }
  }

  /** Three or more digits that read back as n; exactly three below 1000. */
  lemma PaddedNumber(n: nat)
    ensures var p := PadStart(Digits(n), 3, '0');
            && |p| >= 3 && (forall i | 0 <= i < |p| :: IsDigit(p[i]))
            && ParseDigits(p) == n && (n < 1000 ==> |p| == 3)
  {
    var d := Digits(n);
    var p := PadStart(d, 3, '0');
    ParseDigitsLeadingZeros(|p| - |d|, d);
    ParseDigitsRoundTrip(n);
    if n < 1000 {
      DigitsShort(n);
    }
  }

  /** Different last ids give different order numbers. */
  lemma OrderNumberInjective(a: Option<nat>, b: Option<nat>)
    requires NextNumber(a) != NextNumber(b)
    ensures OrderNumber(a) != OrderNumber(b)
  {
    OrderNumberFormat(a);
    OrderNumberFormat(b);
  }

  /** The requested lines whose menu is found. */
  function KnownRequests(reqs: seq<LineRequest>, menus: map<int, Menu>): (r: seq<LineRequest>)
    ensures forall i | 0 <= i < |r| :: r[i].menuId in menus
  {
    if reqs == [] then []
    else if reqs[0].menuId in menus then [reqs[0]] + KnownRequests(reqs[1..], menus)
    else KnownRequests(reqs[1..], menus)
  }

  lemma {:induction false} PriceItemsPrepend(x: LineRequest, reqs: seq<LineRequest>, menus: map<int, Menu>)
    ensures PriceItems([x] + reqs, menus) ==
              (if x.menuId in menus then [PriceItem(menus[x.menuId], x)] else []) + PriceItems(reqs, menus)
  {
    if reqs != [] {
      var init := reqs[..|reqs| - 1];
      assert ([x] + reqs)[..|[x] + reqs| - 1] == [x] + init;
      PriceItemsPrepend(x, init, menus);
    } else {
      assert ([x] + reqs)[..0] == [];
    }
  }

  /** Unknown menus are skipped: the order lines are exactly the found
      lines, in request order, each repriced from its stored menu. */
  lemma {:induction false} PriceItemsKnown(reqs: seq<LineRequest>, menus: map<int, Menu>)
    ensures var k := KnownRequests(reqs, menus);
            PriceItems(reqs, menus) == seq(|k|, i requires 0 <= i < |k| => PriceItem(menus[k[i].menuId], k[i]))
  {
    if reqs != [] {
      assert reqs == [reqs[0]] + reqs[1..];
      PriceItemsPrepend(reqs[0], reqs[1..], menus);
      PriceItemsKnown(reqs[1..], menus);
    }
  }

  /** A request with no known menu creates an order with no lines and a
      total of zero. */
  lemma NoKnownMenuEmptyOrder(reqs: seq<LineRequest>, language: Option<string>, menus: map<int, Menu>,
                              lastOrderId: Option<nat>)
    requires forall i | 0 <= i < |reqs| :: reqs[i].menuId !in menus
    ensures ExpectedOrder(reqs, language, menus, lastOrderId).items == []
    ensures ExpectedOrder(reqs, language, menus, lastOrderId).totalAmount == 0
  {
    PriceItemsKnown(reqs, menus);
    assert KnownRequests(reqs, menus) == [] by {
      NoneKnown(reqs, menus);
    }
  }

  lemma {:induction false} NoneKnown(reqs: seq<LineRequest>, menus: map<int, Menu>)
    requires forall i | 0 <= i < |reqs| :: reqs[i].menuId !in menus
    ensures KnownRequests(reqs, menus) == []
  {
    if reqs != [] {
      assert forall i | 0 <= i < |reqs[1..]| :: reqs[1..][i] == reqs[i + 1];
      NoneKnown(reqs[1..], menus);
    }
  }

  /** A selection that does not resolve in the menu neither adds to the price
      nor is stored. */
  lemma UnresolvedIgnored(menu: Menu, sels: seq<OptionRef>, x: OptionRef)
    requires Resolve(menu.optionGroups, x.groupId, x.optionId).None?
    ensures StoredOptions(menu.optionGroups, sels + [x]) == StoredOptions(menu.optionGroups, sels)
    ensures ItemPrice(menu, sels + [x]) == ItemPrice(menu, sels)
  {
    assert (sels + [x])[..|sels|] == sels;
  }

  /** The (groupId, optionId) pairs of a cart line's options. */
  function Refs(opts: seq<SelectedOption>): (r: seq<OptionRef>)
    ensures |r| == |opts|
    ensures forall i | 0 <= i < |opts| :: r[i] == OptionRef(opts[i].groupId, opts[i].optionId)
  {
    seq(|opts|, i requires 0 <= i < |opts| => OptionRef(opts[i].groupId, opts[i].optionId))
  }

  /** What the kiosk sends for a cart line: the menu id, the quantity and the
      (groupId, optionId) pairs. */
  function RequestOf(line: CartItem): LineRequest {
    LineRequest(line.menuId, line.quantity, Some(Refs(line.selectedOptions)))
  }

  /** The selections all resolve in the menu, each with the modifier the
      cart recorded. */
  predicate ModifiersCurrent(menu: Menu, opts: seq<SelectedOption>) {
    forall i | 0 <= i < |opts| ::
      var r := Resolve(menu.optionGroups, opts[i].groupId, opts[i].optionId);
      r.Some? && r.value.1.priceModifier == opts[i].priceModifier
  }

  lemma {:induction false} StoredSumMatches(menu: Menu, opts: seq<SelectedOption>)
    requires ModifiersCurrent(menu, opts)
    ensures SumOf(StoredOptions(menu.optionGroups, Refs(opts)), StoredPrice) == SumOf(opts, Cart.Modifier)
  {
    if opts != [] {
      var groups := menu.optionGroups;
      var n := |opts| - 1;
      var init := opts[..n];
      var last := opts[n];
      assert opts == init + [last];
      SumOfAppend(init, [last], Cart.Modifier);
      var refs := Refs(opts);
      assert refs[..n] == Refs(init);
      assert refs[n] == OptionRef(last.groupId, last.optionId);
      ModifiersCurrentInit(menu, opts);
      StoredSumMatches(menu, init);
      var r := Resolve(groups, last.groupId, last.optionId);
      assert r.Some? && r.value.1.priceModifier == last.priceModifier;
      var stored := StoredOption(r.value.0.name, r.value.1.name, r.value.1.priceModifier);
      assert StoredOptions(groups, refs) == StoredOptions(groups, Refs(init)) + [stored];
      SumOfAppend(StoredOptions(groups, Refs(init)), [stored], StoredPrice);
    }
  }

  lemma ModifiersCurrentInit(menu: Menu, opts: seq<SelectedOption>)
    requires ModifiersCurrent(menu, opts) && opts != []
    ensures ModifiersCurrent(menu, opts[..|opts| - 1])
  {
    var init := opts[..|opts| - 1];
    forall i | 0 <= i < |init| ensures init[i] == opts[i] { }
  }

  /** When the cart's prices are current, the server charges exactly what the
      cart showed: the same unit price with options and the same subtotal. */
  lemma ServerAgreesWithCart(menu: Menu, line: CartItem)
    requires line.unitPrice == menu.price
    requires ModifiersCurrent(menu, line.selectedOptions)
    ensures PriceItem(menu, RequestOf(line)).unitPrice == Cart.UnitLinePrice(line)
    ensures PriceItem(menu, RequestOf(line)).subtotal == Cart.CalcSubtotal(line)
  {
    StoredSumMatches(menu, line.selectedOptions);
    var price := ItemPrice(menu, Refs(line.selectedOptions));
    assert price == Cart.UnitLinePrice(line);
    assert PriceItem(menu, RequestOf(line)).subtotal == price * line.quantity;
  }
}
