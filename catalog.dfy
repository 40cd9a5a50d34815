/** The shared data shapes of the kiosk (categories, menus, option groups,
    options, selected options and cart lines) and the translation lookup
    every screen uses to pick a localized name. */
module Catalog {
  import opened Base

  /** A `...Translations` column: its JSON text already parsed into a
      language-code to text map, or None when JSON.parse would throw. */
  type Translations = Option<map<string, string>>

  datatype OptionItem = OptionItem(
    id: int,
    optionGroupId: int,
    name: string,
    nameTranslations: Translations,
    priceModifier: int,
    sortOrder: int)

  datatype OptionGroup = OptionGroup(
    id: int,
    menuId: int,
    name: string,
    nameTranslations: Translations,
    required: bool,
    sortOrder: int,
    options: seq<OptionItem>)

  datatype Menu = Menu(
    id: int,
    categoryId: int,
    name: string,
    nameTranslations: Translations,
    description: string,
    descriptionTranslations: Translations,
    price: int,
    imageUrl: Option<string>,
    isActive: bool,
    sortOrder: int,
    optionGroups: seq<OptionGroup>)

  datatype Category = Category(
    id: int,
    name: string,
    nameTranslations: Translations,
    sortOrder: int,
    isActive: bool,
    menus: seq<Menu>)

  /** One chosen option of a cart line, with its display data copied in. */
  datatype SelectedOption = SelectedOption(
    groupId: int,
    optionId: int,
    groupName: string,
    groupNameTranslations: Translations,
    optionName: string,
    optionNameTranslations: Translations,
    priceModifier: int)

  datatype CartItem = CartItem(
    menuId: int,
    menuName: string,
    menuNameTranslations: Translations,
    imageUrl: Option<string>,
    quantity: int,
    unitPrice: int,
    selectedOptions: seq<SelectedOption>,
    subtotal: int)

  /** `map[lang] || fallback` inside a try/catch: the stored translation when
      the JSON parses and holds a non-empty text for lang, else the fallback. */
  function GetTranslation(json: Translations, lang: string, fallback: string): (r: string)
    ensures json.Some? && lang in json.value && json.value[lang] != "" ==> r == json.value[lang]
    ensures json.None? ==> r == fallback
    ensures json.Some? && lang !in json.value ==> r == fallback
    ensures json.Some? && lang in json.value && json.value[lang] == "" ==> r == fallback
  {
    match json
    case None => fallback
    case Some(m) => if lang in m && m[lang] != "" then m[lang] else fallback
  }

  /** `groups.find((g) => g.id === id)`: the first group with that id. */
  function FindGroup(groups: seq<OptionGroup>, id: int): (r: Option<OptionGroup>)
    ensures r.Some? <==> exists i | 0 <= i < |groups| :: groups[i].id == id
    ensures r.Some? ==> r.value.id == id && r.value in groups
    ensures r.Some? ==> exists i | 0 <= i < |groups| ::
              (groups[i] == r.value && forall j | 0 <= j < i :: groups[j].id != id)
  {
    if |groups| == 0 then None
    else if groups[0].id == id then Some(groups[0])
    else
      var r := FindGroup(groups[1..], id);
      assert forall i | 1 <= i < |groups| :: groups[i] == groups[1..][i - 1];
      r
  }

  /** `options.find((o) => o.id === id)`: the first option with that id. */
  function FindOption(options: seq<OptionItem>, id: int): (r: Option<OptionItem>)
    ensures r.Some? <==> exists i | 0 <= i < |options| :: options[i].id == id
    ensures r.Some? ==> r.value.id == id && r.value in options
    ensures r.Some? ==> exists i | 0 <= i < |options| ::
              (options[i] == r.value && forall j | 0 <= j < i :: options[j].id != id)
  {
    if |options| == 0 then None
    else if options[0].id == id then Some(options[0])
    else
      var r := FindOption(options[1..], id);
      assert forall i | 1 <= i < |options| :: options[i] == options[1..][i - 1];
      r
  }

  /** The option a (groupId, optionId) selection names within a menu's groups:
      `group?.options.find(...)`, None when either lookup fails. */
  function Resolve(groups: seq<OptionGroup>, groupId: int, optionId: int): (r: Option<(OptionGroup, OptionItem)>)
    ensures r.Some? ==> r.value.0 in groups && r.value.0.id == groupId
                        && r.value.1 in r.value.0.options && r.value.1.id == optionId
    ensures r.None? ==> FindGroup(groups, groupId).None?
                        || FindOption(FindGroup(groups, groupId).value.options, optionId).None?
  {
    match FindGroup(groups, groupId)
    case None => None
    case Some(g) =>
      match FindOption(g.options, optionId)
      case None => None
      case Some(o) => Some((g, o))
  }
}
