/** The translation editor of the admin pages: for one language it lists
    every catalogue text with its current translation, lets single entries
    be edited by key, and on save writes each edited language entry back
    into the translation map of its category, menu, option group or option.
    The catalogue is given as fetched; the saves are returned as a list of
    writes in the order the editor sends them. */
module TranslationManager {
  import opened Base
  import opened Catalog
  import SettingsForm

  /** `safeParseJson`: empty or malformed input reads as an empty map. */
  function SafeParse(json: Translations): (m: map<string, string>)
    ensures json.None? ==> m == map[]
    ensures json.Some? ==> m == json.value
  {
    json.GetOr(map[])
  }

  /** The languages offered for editing, and the one selected first. */
  function EditableLanguages(langs: seq<string>): (r: (seq<string>, Option<string>))
    ensures "ko" !in r.0
    ensures forall l | l != "ko" :: l in r.0 <==> l in langs
    ensures r.1.Some? <==> r.0 != []
    ensures r.1.Some? ==> r.1.value == r.0[0] && r.1.value in langs && r.1.value != "ko"
  {
    var nonKo := SettingsForm.NonKorean(langs);
    if |nonKo| > 0 then (nonKo, Some(nonKo[0])) else (nonKo, None)
  }

  // ---------------------------------------------------------------------
  // The editable item list
  // ---------------------------------------------------------------------

  datatype Item = Item(id: int, kind: string, field: string, original: string, translated: string, key: string)

  /** `${type}-${id}-${field}`. */
  function ItemKey(kind: string, id: int, field: string): string {
    kind + "-" + IntString(id) + "-" + field
  }

  /** `translations[lang] || ""`. */
  function Shown(json: Translations, lang: string): (r: string)
    ensures r == GetTranslation(json, lang, "")
  {
    var m := SafeParse(json);
    if lang in m then m[lang] else ""
  }

  function MakeItem(id: int, kind: string, field: string, original: string, json: Translations, lang: string): (it: Item)
    ensures it.key == ItemKey(kind, id, field) && it.translated == Shown(json, lang)
    ensures it.id == id && it.kind == kind && it.field == field && it.original == original
  {
    Item(id, kind, field, original, Shown(json, lang), ItemKey(kind, id, field))
  }

  function CategoryItems(cats: seq<Category>, lang: string): seq<Item> {
    if cats == [] then []
    else
      var c := cats[|cats| - 1];
      CategoryItems(cats[..|cats| - 1], lang) + [MakeItem(c.id, "category", "name", c.name, c.nameTranslations, lang)]
  }

  function OptionItems(options: seq<OptionItem>, lang: string): seq<Item> {
    if options == [] then []
    else
      var o := options[|options| - 1];
      OptionItems(options[..|options| - 1], lang) + [MakeItem(o.id, "option", "name", o.name, o.nameTranslations, lang)]
  }

  /** Each group followed by its options. */
  function GroupItems(groups: seq<OptionGroup>, lang: string): seq<Item> {
    if groups == [] then []
    else
      var g := groups[|groups| - 1];
      GroupItems(groups[..|groups| - 1], lang)
        + ([MakeItem(g.id, "optionGroup", "name", g.name, g.nameTranslations, lang)] + OptionItems(g.options, lang))
  }

  /** A menu's name, its description when not empty, then its groups. */
  function MenuItems(m: Menu, lang: string): seq<Item> {
    MenuOwnItems(m, lang) + GroupItems(m.optionGroups, lang)
  }

  function MenusItems(menus: seq<Menu>, lang: string): seq<Item> {
    if menus == [] then []
    else MenusItems(menus[..|menus| - 1], lang) + MenuItems(menus[|menus| - 1], lang)
  }

  function AllItems(cats: seq<Category>, menus: seq<Menu>, lang: string): seq<Item> {
    CategoryItems(cats, lang) + MenusItems(menus, lang)
  }

  /** The option loop of `fetchTranslations`. */
  method CollectOptions(options: seq<OptionItem>, lang: string) returns (result: seq<Item>)
    ensures result == OptionItems(options, lang)
  {
    result := [];
    for k := 0 to |options|
      invariant result == OptionItems(options[..k], lang)
    {
      var o := options[k];
      assert options[..k + 1][..k] == options[..k];
      result := result + [MakeItem(o.id, "option", "name", o.name, o.nameTranslations, lang)];
    }
    assert options[..|options|] == options;
  }

  lemma GroupItemsSnoc(groups: seq<OptionGroup>, i: nat, lang: string)
    requires i < |groups|
    ensures GroupItems(groups[..i + 1], lang) == GroupItems(groups[..i], lang)
              + ([MakeItem(groups[i].id, "optionGroup", "name", groups[i].name, groups[i].nameTranslations, lang)]
                 + OptionItems(groups[i].options, lang))
  {
    assert groups[..i + 1][..i] == groups[..i];
  }

  /** The group loop of `fetchTranslations`. */
  method CollectGroups(groups: seq<OptionGroup>, lang: string) returns (result: seq<Item>)
    ensures result == GroupItems(groups, lang)
  {
    result := [];
    for i := 0 to |groups|
      invariant result == GroupItems(groups[..i], lang)
    {
      var g := groups[i];
      GroupItemsSnoc(groups, i, lang);
      var gi := MakeItem(g.id, "optionGroup", "name", g.name, g.nameTranslations, lang);
      var opts := CollectOptions(g.options, lang);
      result := result + ([gi] + opts);
    }
    assert groups[..|groups|] == groups;
  }

  /** A menu's own items: its name and, when not empty, its description. */
  function MenuOwnItems(m: Menu, lang: string): seq<Item> {
    [MakeItem(m.id, "menu", "name", m.name, m.nameTranslations, lang)]
      + (if m.description != "" then [MakeItem(m.id, "menu", "description", m.description, m.descriptionTranslations, lang)] else [])
  }

  lemma MenusItemsSnoc(menus: seq<Menu>, i: nat, lang: string)
    requires i < |menus|
    ensures MenusItems(menus[..i + 1], lang) == MenusItems(menus[..i], lang)
              + (MenuOwnItems(menus[i], lang) + GroupItems(menus[i].optionGroups, lang))
  {
    assert menus[..i + 1][..i] == menus[..i];
  }

  lemma CategoryItemsSnoc(cats: seq<Category>, i: nat, lang: string)
    requires i < |cats|
    ensures CategoryItems(cats[..i + 1], lang) == CategoryItems(cats[..i], lang)
              + [MakeItem(cats[i].id, "category", "name", cats[i].name, cats[i].nameTranslations, lang)]
  {
    assert cats[..i + 1][..i] == cats[..i];
  }

  /** The category loop of `fetchTranslations`. */
  method CollectCategories(cats: seq<Category>, lang: string) returns (result: seq<Item>)
    ensures result == CategoryItems(cats, lang)
  {
    result := [];
    for i := 0 to |cats|
      invariant result == CategoryItems(cats[..i], lang)
    {
      var c := cats[i];
      CategoryItemsSnoc(cats, i, lang);
      result := result + [MakeItem(c.id, "category", "name", c.name, c.nameTranslations, lang)];
    }
    assert cats[..|cats|] == cats;
  }

  /** The menu loop of `fetchTranslations`. */
  method CollectMenus(menus: seq<Menu>, lang: string) returns (result: seq<Item>)
    ensures result == MenusItems(menus, lang)
  {
    result := [];
    for i := 0 to |menus|
      invariant result == MenusItems(menus[..i], lang)
    {
      var m := menus[i];
      MenusItemsSnoc(menus, i, lang);
      var own := [MakeItem(m.id, "menu", "name", m.name, m.nameTranslations, lang)];
      if m.description != "" {
        own := own + [MakeItem(m.id, "menu", "description", m.description, m.descriptionTranslations, lang)];
      }
      assert own == MenuOwnItems(m, lang);
      var groups := CollectGroups(m.optionGroups, lang);
      result := result + (own + groups);
    }
    assert menus[..|menus|] == menus;
  }

  /** `fetchTranslations`: nothing happens without a language. */
  method FetchTranslations(lang: string, cats: seq<Category>, menus: seq<Menu>) returns (r: Option<seq<Item>>)
    ensures lang == "" ==> r.None?
    ensures lang != "" ==> r == Some(AllItems(cats, menus, lang))
  {
    if lang == "" {
      return None;
    }
    var fromCats := CollectCategories(cats, lang);
    var fromMenus := CollectMenus(menus, lang);
    return Some(fromCats + fromMenus);
  }

  // ---------------------------------------------------------------------
  // Editing
  // ---------------------------------------------------------------------

  /** `updateTranslation`: every item with that key gets the new text. */
  function UpdateTranslation(items: seq<Item>, key: string, value: string): (r: seq<Item>)
    ensures |r| == |items|
    ensures forall i | 0 <= i < |items| && items[i].key != key :: r[i] == items[i]
    ensures forall i | 0 <= i < |items| && items[i].key == key :: r[i] == items[i].(translated := value)
  {
    seq(|items|, i requires 0 <= i < |items| => if items[i].key == key then items[i].(translated := value) else items[i])
  }

  // ---------------------------------------------------------------------
  // Saving
  // ---------------------------------------------------------------------

  datatype OptionWrite = OptionWrite(name: string, nameTranslations: map<string, string>, priceModifier: int, sortOrder: int)

  /** The requests `saveTranslations` sends: a category's names, a menu's
      name and/or description maps, and a group's name map together with all
      its options. */
  datatype Write =
    | CategoryWrite(id: int, nameTranslations: map<string, string>)
    | MenuWrite(id: int, name: Option<map<string, string>>, description: Option<map<string, string>>)
    | GroupWrite(menuId: int, groupId: int, nameTranslations: map<string, string>, options: seq<OptionWrite>)

  /** A written map differs from the stored one at most in the entry for lang. */
  ghost predicate OnlyLangChanged(stored: map<string, string>, written: map<string, string>, lang: string) {
    forall l | l != lang :: (l in written <==> l in stored) && (l in stored ==> written[l] == stored[l])
  }

  predicate Matches(it: Item, kind: string, id: int, field: Option<string>) {
    it.kind == kind && it.id == id && (field.None? || it.field == field.value)
  }

  /** The text of the last matching item: successive writes of the same entry
      leave the last one. */
  function LastValue(items: seq<Item>, kind: string, id: int, field: Option<string>): (r: Option<string>)
    ensures r.None? <==> forall i | 0 <= i < |items| :: !Matches(items[i], kind, id, field)
    ensures r.Some? ==> exists i | 0 <= i < |items| ::
              Matches(items[i], kind, id, field) && items[i].translated == r.value
              && forall j | i < j < |items| :: !Matches(items[j], kind, id, field)
  {
    if items == [] then None
    else
      var last := items[|items| - 1];
      if Matches(last, kind, id, field) then Some(last.translated)
      else
        var init := items[..|items| - 1];
        var r := LastValue(init, kind, id, field);
        assert forall i | 0 <= i < |init| :: items[i] == init[i];
        r
  }

  /** `items.find(...)`: the first matching item. */
  function FirstItem(items: seq<Item>, kind: string, id: int): (r: Option<Item>)
    ensures r.None? <==> forall i | 0 <= i < |items| :: !Matches(items[i], kind, id, None)
    ensures r.Some? ==> exists i | 0 <= i < |items| ::
              items[i] == r.value && Matches(items[i], kind, id, None)
              && forall j | 0 <= j < i :: !Matches(items[j], kind, id, None)
  {
    if items == [] then None
    else if Matches(items[0], kind, id, None) then Some(items[0])
    else
      var r := FirstItem(items[1..], kind, id);
      assert forall i | 1 <= i < |items| :: items[i] == items[1..][i - 1];
      r
  }

  /** The stored map with the entry for lang set, when there is a text for it. */
  function SetLang(stored: map<string, string>, lang: string, v: Option<string>): (m: map<string, string>)
    ensures OnlyLangChanged(stored, m, lang)
    ensures v.Some? ==> lang in m && m[lang] == v.value
    ensures v.None? ==> m == stored
  {
    if v.Some? then stored[lang := v.value] else stored
  }

  function CategoryWriteOf(items: seq<Item>, lang: string, cat: Category): (w: Option<Write>)
    ensures w.Some? <==> exists i | 0 <= i < |items| :: Matches(items[i], "category", cat.id, None)
    ensures w.Some? ==> w.value.CategoryWrite? && w.value.id == cat.id
                        && OnlyLangChanged(SafeParse(cat.nameTranslations), w.value.nameTranslations, lang)
                        && lang in w.value.nameTranslations
                        && w.value.nameTranslations[lang] == LastValue(items, "category", cat.id, None).value
  {
    var v := LastValue(items, "category", cat.id, None);
    if v.None? then None
    else Some(CategoryWrite(cat.id, SetLang(SafeParse(cat.nameTranslations), lang, v)))
  }

  /** The map written for one menu column, if any item is for that field. */
  function MenuColumn(items: seq<Item>, lang: string, id: int, field: string, json: Translations): (r: Option<map<string, string>>)
    ensures r.Some? <==> exists i | 0 <= i < |items| :: Matches(items[i], "menu", id, Some(field))
    ensures r.Some? ==> OnlyLangChanged(SafeParse(json), r.value, lang) && lang in r.value
    ensures r.Some? ==> r.value[lang] == LastValue(items, "menu", id, Some(field)).value
  {
    var v := LastValue(items, "menu", id, Some(field));
    if v.None? then None else Some(SetLang(SafeParse(json), lang, v))
  }

  function MenuWriteOf(items: seq<Item>, lang: string, menu: Menu): (w: Option<Write>)
    ensures w.Some? <==> exists i | 0 <= i < |items| :: Matches(items[i], "menu", menu.id, None)
    ensures w.Some? ==> w.value.MenuWrite? && w.value.id == menu.id
    ensures w.Some? ==> && w.value.name == MenuColumn(items, lang, menu.id, "name", menu.nameTranslations)
                        && w.value.description == MenuColumn(items, lang, menu.id, "description", menu.descriptionTranslations)
  {
    if LastValue(items, "menu", menu.id, None).None? then None
    else Some(MenuWrite(menu.id,
                        MenuColumn(items, lang, menu.id, "name", menu.nameTranslations),
                        MenuColumn(items, lang, menu.id, "description", menu.descriptionTranslations)))
  }

  predicate HasOptionId(options: seq<OptionItem>, id: int) {
    exists o | o in options :: o.id == id
  }

  /** The option items of a group: those whose id is one of its options. */
  function OptItems(items: seq<Item>, options: seq<OptionItem>): (r: seq<Item>)
    ensures forall it | it in r :: it in items && it.kind == "option" && HasOptionId(options, it.id)
    ensures forall it | it in items && it.kind == "option" && HasOptionId(options, it.id) :: it in r
  {
    if items == [] then []
    else
      var last := items[|items| - 1];
      var init := items[..|items| - 1];
      assert items == init + [last];
      OptItems(init, options) + (if last.kind == "option" && HasOptionId(options, last.id) then [last] else [])
  }

  /** `items.find((i) => i.id === id)`: the first item with that id. */
  function FirstWithId(items: seq<Item>, id: int): (r: Option<Item>)
    ensures r.Some? ==> r.value in items && r.value.id == id
    ensures r.None? <==> forall i | 0 <= i < |items| :: items[i].id != id
    ensures r.Some? ==> exists i | 0 <= i < |items| :: items[i] == r.value && forall j | 0 <= j < i :: items[j].id != id
  {
    if items == [] then None
    else if items[0].id == id then Some(items[0])
    else
      assert forall i | 1 <= i < |items| :: items[i] == items[1..][i - 1];
      FirstWithId(items[1..], id)
  }

  /** `group.options.map(...)`: each option rebuilt with its map updated. */
  function UpdatedOptions(optItems: seq<Item>, lang: string, options: seq<OptionItem>): (r: seq<OptionWrite>)
    ensures |r| == |options|
    ensures forall i | 0 <= i < |options| ::
              && r[i].name == options[i].name
              && r[i].priceModifier == options[i].priceModifier
              && r[i].sortOrder == options[i].sortOrder
              && OnlyLangChanged(SafeParse(options[i].nameTranslations), r[i].nameTranslations, lang)
    ensures forall i | 0 <= i < |options| ::
              FirstWithId(optItems, options[i].id).None? ==> r[i].nameTranslations == SafeParse(options[i].nameTranslations)
    ensures forall i | 0 <= i < |options| :: FirstWithId(optItems, options[i].id).Some? ==>
              && lang in r[i].nameTranslations
              && r[i].nameTranslations[lang] == FirstWithId(optItems, options[i].id).value.translated
  {
    seq(|options|, i requires 0 <= i < |options| =>
      var it := FirstWithId(optItems, options[i].id);
      OptionWrite(options[i].name,
                  SetLang(SafeParse(options[i].nameTranslations), lang, if it.Some? then Some(it.value.translated) else None),
                  options[i].priceModifier, options[i].sortOrder))
  }

  /** One group: saved only when it has a group item or an option item. */
  function GroupWriteOf(items: seq<Item>, lang: string, menuId: int, g: OptionGroup): (w: Option<Write>)
    ensures w.Some? <==> FirstItem(items, "optionGroup", g.id).Some? || OptItems(items, g.options) != []
    ensures w.Some? ==> && w.value.GroupWrite? && w.value.menuId == menuId && w.value.groupId == g.id
                        && OnlyLangChanged(SafeParse(g.nameTranslations), w.value.nameTranslations, lang)
                        && |w.value.options| == |g.options|
    ensures w.Some? && FirstItem(items, "optionGroup", g.id).Some? ==>
              lang in w.value.nameTranslations && w.value.nameTranslations[lang] == FirstItem(items, "optionGroup", g.id).value.translated
    ensures w.Some? && FirstItem(items, "optionGroup", g.id).None? ==> w.value.nameTranslations == SafeParse(g.nameTranslations)
    ensures w.Some? ==> w.value.options == UpdatedOptions(OptItems(items, g.options), lang, g.options)
  {
    var groupItem := FirstItem(items, "optionGroup", g.id);
    var optItems := OptItems(items, g.options);
    if groupItem.Some? || optItems != [] then
      Some(GroupWrite(menuId, g.id,
                      SetLang(SafeParse(g.nameTranslations), lang, if groupItem.Some? then Some(groupItem.value.translated) else None),
                      UpdatedOptions(optItems, lang, g.options)))
    else None
  }

  function Opt(w: Option<Write>): seq<Write> {
    if w.Some? then [w.value] else []
  }

  function GroupWrites(items: seq<Item>, lang: string, menuId: int, groups: seq<OptionGroup>): seq<Write> {
    if groups == [] then []
    else GroupWrites(items, lang, menuId, groups[..|groups| - 1]) + Opt(GroupWriteOf(items, lang, menuId, groups[|groups| - 1]))
  }

  function CategoryWrites(items: seq<Item>, lang: string, cats: seq<Category>): seq<Write> {
    if cats == [] then []
    else CategoryWrites(items, lang, cats[..|cats| - 1]) + Opt(CategoryWriteOf(items, lang, cats[|cats| - 1]))
  }

  /** A menu without any menu item is skipped together with its groups. */
  function MenuWrites(items: seq<Item>, lang: string, menu: Menu): seq<Write> {
    match MenuWriteOf(items, lang, menu)
    case None => []
    case Some(w) => [w] + GroupWrites(items, lang, menu.id, menu.optionGroups)
  }

  function MenusWrites(items: seq<Item>, lang: string, menus: seq<Menu>): seq<Write> {
    if menus == [] then []
    else MenusWrites(items, lang, menus[..|menus| - 1]) + MenuWrites(items, lang, menus[|menus| - 1])
  }

  function SaveWrites(items: seq<Item>, lang: string, cats: seq<Category>, menus: seq<Menu>): seq<Write> {
    CategoryWrites(items, lang, cats) + MenusWrites(items, lang, menus)
  }

  lemma LastValueSnoc(items: seq<Item>, k: nat, kind: string, id: int, field: Option<string>)
    requires k < |items|
    ensures LastValue(items[..k + 1], kind, id, field) ==
              if Matches(items[k], kind, id, field) then Some(items[k].translated) else LastValue(items[..k], kind, id, field)
  {
    assert items[..k + 1][..k] == items[..k];
  }

  /** One more item either overwrites the language's entry with its text or
      leaves the merged map as it was. */
  lemma SetLangSnoc(stored: map<string, string>, lang: string, items: seq<Item>, k: nat, kind: string, id: int)
    requires k < |items|
    ensures SetLang(stored, lang, LastValue(items[..k + 1], kind, id, None)) ==
              if Matches(items[k], kind, id, None)
              then SetLang(stored, lang, LastValue(items[..k], kind, id, None))[lang := items[k].translated]
              else SetLang(stored, lang, LastValue(items[..k], kind, id, None))
  {
    LastValueSnoc(items, k, kind, id, None);
    if Matches(items[k], kind, id, None) {
      var before := SetLang(stored, lang, LastValue(items[..k], kind, id, None));
      assert before[lang := items[k].translated] == stored[lang := items[k].translated];
    }
  }

  /** `for (const ci of catItems) existing[selectedLang] = ci.translated`. */
  method MergeCategory(items: seq<Item>, lang: string, cat: Category) returns (found: bool, existing: map<string, string>)
    ensures found == LastValue(items, "category", cat.id, None).Some?
    ensures existing == SetLang(SafeParse(cat.nameTranslations), lang, LastValue(items, "category", cat.id, None))
  {
    var stored := SafeParse(cat.nameTranslations);
    existing := stored;
    found := false;
    for k := 0 to |items|
      invariant found == LastValue(items[..k], "category", cat.id, None).Some?
      invariant existing == SetLang(stored, lang, LastValue(items[..k], "category", cat.id, None))
    {
      LastValueSnoc(items, k, "category", cat.id, None);
      SetLangSnoc(stored, lang, items, k, "category", cat.id);
      if items[k].kind == "category" && items[k].id == cat.id {
        existing := existing[lang := items[k].translated];
        found := true;
      }
    }
    assert items[..|items|] == items;
  }

  /** The category loop of `saveTranslations`. */
  method SaveCategories(items: seq<Item>, lang: string, cats: seq<Category>) returns (writes: seq<Write>)
    ensures writes == CategoryWrites(items, lang, cats)
  {
    writes := [];
    for i := 0 to |cats|
      invariant writes == CategoryWrites(items, lang, cats[..i])
    {
      var cat := cats[i];
      assert cats[..i + 1][..i] == cats[..i];
      var found, existing := MergeCategory(items, lang, cat);
      if found {
        writes := writes + [CategoryWrite(cat.id, existing)];
      }
    }
    assert cats[..|cats|] == cats;
  }

  /** The menu columns: the last name item and the last description item. */
  method MenuColumns(items: seq<Item>, lang: string, menu: Menu) returns (any: bool, name: Option<map<string, string>>, description: Option<map<string, string>>)
    ensures any == LastValue(items, "menu", menu.id, None).Some?
    ensures name == MenuColumn(items, lang, menu.id, "name", menu.nameTranslations)
    ensures description == MenuColumn(items, lang, menu.id, "description", menu.descriptionTranslations)
  {
    any, name, description := false, None, None;
    for k := 0 to |items|
      invariant any == LastValue(items[..k], "menu", menu.id, None).Some?
      invariant name == MenuColumn(items[..k], lang, menu.id, "name", menu.nameTranslations)
      invariant description == MenuColumn(items[..k], lang, menu.id, "description", menu.descriptionTranslations)
    {
      LastValueSnoc(items, k, "menu", menu.id, None);
      LastValueSnoc(items, k, "menu", menu.id, Some("name"));
      LastValueSnoc(items, k, "menu", menu.id, Some("description"));
      var it := items[k];
      if it.kind == "menu" && it.id == menu.id {
        any := true;
        if it.field == "name" {
          name := Some(SafeParse(menu.nameTranslations)[lang := it.translated]);
        } else if it.field == "description" {
          description := Some(SafeParse(menu.descriptionTranslations)[lang := it.translated]);
        }
      }
    }
    assert items[..|items|] == items;
  }

  /** The group loop of `saveTranslations`. */
  method SaveGroups(items: seq<Item>, lang: string, menuId: int, groups: seq<OptionGroup>) returns (writes: seq<Write>)
    ensures writes == GroupWrites(items, lang, menuId, groups)
  {
    writes := [];
    for k := 0 to |groups|
      invariant writes == GroupWrites(items, lang, menuId, groups[..k])
    {
      assert groups[..k + 1][..k] == groups[..k];
      var g := GroupWriteOf(items, lang, menuId, groups[k]);
      if g.Some? {
        writes := writes + [g.value];
      }
    }
    assert groups[..|groups|] == groups;
  }

  /** The menu loop of `saveTranslations`; a menu without items is skipped
      together with its groups. */
  method SaveMenus(items: seq<Item>, lang: string, menus: seq<Menu>) returns (writes: seq<Write>)
    ensures writes == MenusWrites(items, lang, menus)
  {
    writes := [];
    for i := 0 to |menus|
      invariant writes == MenusWrites(items, lang, menus[..i])
    {
      var menu := menus[i];
      assert menus[..i + 1][..i] == menus[..i];
      var any, name, description := MenuColumns(items, lang, menu);
      if !any {
        continue;
      }
      var groups := SaveGroups(items, lang, menu.id, menu.optionGroups);
      writes := writes + ([MenuWrite(menu.id, name, description)] + groups);
    }
    assert menus[..|menus|] == menus;
  }

  /** `saveTranslations`. */
  method SaveTranslations(items: seq<Item>, lang: string, cats: seq<Category>, menus: seq<Menu>) returns (writes: seq<Write>)
    ensures writes == SaveWrites(items, lang, cats, menus)
  {
    var a := SaveCategories(items, lang, cats);
    var b := SaveMenus(items, lang, menus);
    writes := a + b;
  }

  // ---------------------------------------------------------------------
  // Properties
  // ---------------------------------------------------------------------

  /** The key of an item names its kind, id and field: for one kind and
      field, two non-negative ids with the same key are the same id. */
  lemma KeyInjective(kind: string, a: nat, b: nat, field: string)
    requires ItemKey(kind, a, field) == ItemKey(kind, b, field)
    ensures a == b
  {
    var da, db := Digits(a), Digits(b);
    var pre, post := kind + "-", "-" + field;
    var s := ItemKey(kind, a, field);
    assert s == pre + da + post;
    assert ItemKey(kind, b, field) == pre + db + post;
    assert |da| == |db|;
    MiddlePart(pre, da, post);
    MiddlePart(pre, db, post);
    ParseDigitsRoundTrip(a);
    ParseDigitsRoundTrip(b);
  }

  lemma MiddlePart(pre: string, mid: string, post: string)
    ensures (pre + mid + post)[|pre|..|pre| + |mid|] == mid
  {
  }

  /** A menu's name and description keys never collide. */
  lemma NameDescriptionKeysDiffer(kind: string, a: int, b: int)
    ensures ItemKey(kind, a, "name") != ItemKey(kind, b, "description")
  {
    var s := ItemKey(kind, a, "name");
    var t := ItemKey(kind, b, "description");
    assert s[|s| - 1] == 'e';
    assert t[|t| - 1] == 'n';
  }

  /** Editing keeps every key in place. */
  lemma UpdateKeepsKeys(items: seq<Item>, key: string, value: string)
    ensures forall i | 0 <= i < |items| :: UpdateTranslation(items, key, value)[i].key == items[i].key
  {
  }

  /** A second edit of the same key replaces the first. */
  lemma UpdateLastWins(items: seq<Item>, key: string, v: string, w: string)
    ensures UpdateTranslation(UpdateTranslation(items, key, v), key, w) == UpdateTranslation(items, key, w)
  {
  }

  /** Edits of different keys do not interfere. */
  lemma UpdateCommutes(items: seq<Item>, k1: string, v: string, k2: string, w: string)
    requires k1 != k2
    ensures UpdateTranslation(UpdateTranslation(items, k1, v), k2, w) == UpdateTranslation(UpdateTranslation(items, k2, w), k1, v)
  {
  }

  /** Saving an entry whose shown text was left as it was rewrites the stored
      map unchanged, except that a missing entry is stored as "". */
  lemma SaveUneditedCategory(items: seq<Item>, lang: string, cat: Category)
    requires LastValue(items, "category", cat.id, None) == Some(Shown(cat.nameTranslations, lang))
    ensures CategoryWriteOf(items, lang, cat) ==
              Some(CategoryWrite(cat.id, var m := SafeParse(cat.nameTranslations);
                                         if lang in m then m else m[lang := ""]))
  {
    var m := SafeParse(cat.nameTranslations);
    if lang in m {
      assert m[lang := m[lang]] == m;
    }
  }

  /** An edited text reaches the map written for its category. */
  lemma EditReachesCategory(items: seq<Item>, lang: string, cat: Category, v: string)
    requires exists i | 0 <= i < |items| :: items[i] == MakeItem(cat.id, "category", "name", cat.name, cat.nameTranslations, lang)
    requires forall i | 0 <= i < |items| && items[i].kind == "category" && items[i].id == cat.id ::
               items[i].key == ItemKey("category", cat.id, "name")
    ensures var w := CategoryWriteOf(UpdateTranslation(items, ItemKey("category", cat.id, "name"), v), lang, cat);
            w.Some? && w.value.nameTranslations[lang] == v
  {
    var key := ItemKey("category", cat.id, "name");
    var edited := UpdateTranslation(items, key, v);
    var i :| 0 <= i < |items| && items[i] == MakeItem(cat.id, "category", "name", cat.name, cat.nameTranslations, lang);
    assert Matches(edited[i], "category", cat.id, None);
    var lv := LastValue(edited, "category", cat.id, None);
    var j :| 0 <= j < |edited| && Matches(edited[j], "category", cat.id, None) && edited[j].translated == lv.value;
    assert items[j].key == key;
  }

  /** An edited menu text reaches the column written for its field. */
  lemma EditReachesMenu(items: seq<Item>, lang: string, menu: Menu, field: string, v: string)
    requires exists i | 0 <= i < |items| :: Matches(items[i], "menu", menu.id, Some(field))
    requires forall i | 0 <= i < |items| && Matches(items[i], "menu", menu.id, Some(field)) ::
               items[i].key == ItemKey("menu", menu.id, field)
    ensures var w := MenuWriteOf(UpdateTranslation(items, ItemKey("menu", menu.id, field), v), lang, menu);
            && w.Some?
            && (field == "name" ==> w.value.name.Some? && w.value.name.value[lang] == v)
            && (field == "description" ==> w.value.description.Some? && w.value.description.value[lang] == v)
  {
    var key := ItemKey("menu", menu.id, field);
    var edited := UpdateTranslation(items, key, v);
    var i :| 0 <= i < |items| && Matches(items[i], "menu", menu.id, Some(field));
    assert Matches(edited[i], "menu", menu.id, Some(field));
    assert Matches(edited[i], "menu", menu.id, None);
    var lv := LastValue(edited, "menu", menu.id, Some(field));
    var j :| 0 <= j < |edited| && Matches(edited[j], "menu", menu.id, Some(field)) && edited[j].translated == lv.value;
    assert items[j].key == key;
  }

  /** An edited group name reaches the map written for its group. */
  lemma EditReachesGroup(items: seq<Item>, lang: string, menuId: int, g: OptionGroup, v: string)
    requires exists i | 0 <= i < |items| :: Matches(items[i], "optionGroup", g.id, None)
    requires forall i | 0 <= i < |items| && Matches(items[i], "optionGroup", g.id, None) ::
               items[i].key == ItemKey("optionGroup", g.id, "name")
    ensures var w := GroupWriteOf(UpdateTranslation(items, ItemKey("optionGroup", g.id, "name"), v), lang, menuId, g);
            w.Some? && w.value.nameTranslations[lang] == v
  {
    var key := ItemKey("optionGroup", g.id, "name");
    var edited := UpdateTranslation(items, key, v);
    var i :| 0 <= i < |items| && Matches(items[i], "optionGroup", g.id, None);
    assert Matches(edited[i], "optionGroup", g.id, None);
    var first := FirstItem(edited, "optionGroup", g.id);
    var j :| 0 <= j < |edited| && edited[j] == first.value && Matches(edited[j], "optionGroup", g.id, None);
    assert items[j].key == key;
  }

  /** An edited option name reaches the map written for that option of its
      group. */
  lemma EditReachesOption(items: seq<Item>, lang: string, menuId: int, g: OptionGroup, k: nat, v: string)
    requires k < |g.options|
    requires exists i | 0 <= i < |items| :: items[i].kind == "option" && items[i].id == g.options[k].id
    requires forall i | 0 <= i < |items| && items[i].kind == "option" && items[i].id == g.options[k].id ::
               items[i].key == ItemKey("option", g.options[k].id, "name")
    ensures var w := GroupWriteOf(UpdateTranslation(items, ItemKey("option", g.options[k].id, "name"), v), lang, menuId, g);
            w.Some? && w.value.options[k].nameTranslations[lang] == v
  {
    var o := g.options[k];
    var key := ItemKey("option", o.id, "name");
    var edited := UpdateTranslation(items, key, v);
    var i :| 0 <= i < |items| && items[i].kind == "option" && items[i].id == o.id;
    assert HasOptionId(g.options, o.id) by { assert o in g.options; }
    assert edited[i] in edited;
    var optItems := OptItems(edited, g.options);
    assert edited[i] in optItems;
    var found := FirstWithId(optItems, o.id);
    assert found.Some?;
    assert found.value in edited;
    var j :| 0 <= j < |edited| && edited[j] == found.value;
    assert items[j].key == key;
  }

  // ----- The list and the settings count inspect the same texts ----------

  function Translateds(items: seq<Item>): seq<string> {
    if items == [] then [] else Translateds(items[..|items| - 1]) + [items[|items| - 1].translated]
  }

  function ShownAll(es: seq<Translations>, lang: string): seq<string> {
    if es == [] then [] else ShownAll(es[..|es| - 1], lang) + [Shown(es[|es| - 1], lang)]
  }

  lemma {:induction false} TranslatedsAppend(a: seq<Item>, b: seq<Item>)
    ensures Translateds(a + b) == Translateds(a) + Translateds(b)
  {
    if b == [] {
      assert a + b == a;
    } else {
      assert (a + b)[..|a + b| - 1] == a + b[..|b| - 1];
      TranslatedsAppend(a, b[..|b| - 1]);
    }
  }

  lemma {:induction false} ShownAllAppend(a: seq<Translations>, b: seq<Translations>, lang: string)
    ensures ShownAll(a + b, lang) == ShownAll(a, lang) + ShownAll(b, lang)
  {
    if b == [] {
      assert a + b == a;
    } else {
      assert (a + b)[..|a + b| - 1] == a + b[..|b| - 1];
      ShownAllAppend(a, b[..|b| - 1], lang);
    }
  }

  lemma OneShown(it: Item, e: Translations, lang: string)
    requires it.translated == Shown(e, lang)
    ensures Translateds([it]) == ShownAll([e], lang)
  {
    assert [it][..0] == [];
    assert [e][..0] == [];
  }

  lemma {:induction false} OptionsShown(options: seq<OptionItem>, lang: string)
    ensures Translateds(OptionItems(options, lang)) == ShownAll(SettingsForm.OptionEntries(options), lang)
  {
    if options != [] {
      var init := options[..|options| - 1];
      var o := options[|options| - 1];
      OptionsShown(init, lang);
      TranslatedsAppend(OptionItems(init, lang), [MakeItem(o.id, "option", "name", o.name, o.nameTranslations, lang)]);
      ShownAllAppend(SettingsForm.OptionEntries(init), [o.nameTranslations], lang);
      OneShown(MakeItem(o.id, "option", "name", o.name, o.nameTranslations, lang), o.nameTranslations, lang);
    }
  }

  lemma {:induction false} GroupsShown(groups: seq<OptionGroup>, lang: string)
    ensures Translateds(GroupItems(groups, lang)) == ShownAll(SettingsForm.GroupEntries(groups), lang)
  {
    if groups != [] {
      var init := groups[..|groups| - 1];
      var g := groups[|groups| - 1];
      var gi := MakeItem(g.id, "optionGroup", "name", g.name, g.nameTranslations, lang);
      GroupsShown(init, lang);
      OptionsShown(g.options, lang);
      OneShown(gi, g.nameTranslations, lang);
      TranslatedsAppend(GroupItems(init, lang), [gi] + OptionItems(g.options, lang));
      TranslatedsAppend([gi], OptionItems(g.options, lang));
      ShownAllAppend(SettingsForm.GroupEntries(init), [g.nameTranslations] + SettingsForm.OptionEntries(g.options), lang);
      ShownAllAppend([g.nameTranslations], SettingsForm.OptionEntries(g.options), lang);
    }
  }

  lemma MenuShown(m: Menu, lang: string)
    ensures Translateds(MenuItems(m, lang)) == ShownAll(SettingsForm.MenuEntries(m), lang)
  {
    var ni := MakeItem(m.id, "menu", "name", m.name, m.nameTranslations, lang);
    var di := MakeItem(m.id, "menu", "description", m.description, m.descriptionTranslations, lang);
    var dItems := if m.description != "" then [di] else [];
    var dEntries := if m.description != "" then [m.descriptionTranslations] else [];
    GroupsShown(m.optionGroups, lang);
    OneShown(ni, m.nameTranslations, lang);
    OneShown(di, m.descriptionTranslations, lang);
    assert Translateds(dItems) == ShownAll(dEntries, lang);
    TranslatedsAppend([ni] + dItems, GroupItems(m.optionGroups, lang));
    TranslatedsAppend([ni], dItems);
    ShownAllAppend([m.nameTranslations] + dEntries, SettingsForm.GroupEntries(m.optionGroups), lang);
    ShownAllAppend([m.nameTranslations], dEntries, lang);
  }

  lemma {:induction false} MenusShown(menus: seq<Menu>, lang: string)
    ensures Translateds(MenusItems(menus, lang)) == ShownAll(SettingsForm.MenusEntries(menus), lang)
  {
    if menus != [] {
      var init := menus[..|menus| - 1];
      var m := menus[|menus| - 1];
      MenusShown(init, lang);
      MenuShown(m, lang);
      TranslatedsAppend(MenusItems(init, lang), MenuItems(m, lang));
      ShownAllAppend(SettingsForm.MenusEntries(init), SettingsForm.MenuEntries(m), lang);
    }
  }

  lemma {:induction false} CategoriesShown(cats: seq<Category>, lang: string)
    ensures Translateds(CategoryItems(cats, lang)) == ShownAll(SettingsForm.CategoryEntries(cats), lang)
  {
    if cats != [] {
      var init := cats[..|cats| - 1];
      var c := cats[|cats| - 1];
      var ci := MakeItem(c.id, "category", "name", c.name, c.nameTranslations, lang);
      CategoriesShown(init, lang);
      OneShown(ci, c.nameTranslations, lang);
      TranslatedsAppend(CategoryItems(init, lang), [ci]);
      ShownAllAppend(SettingsForm.CategoryEntries(init), [c.nameTranslations], lang);
    }
  }

  /** The editor lists, in order, exactly the texts whose translations the
      settings page counts, each with its stored translation or "". */
  lemma EditorListsCountedTexts(cats: seq<Category>, menus: seq<Menu>, lang: string)
    ensures Translateds(AllItems(cats, menus, lang)) == ShownAll(SettingsForm.AllEntries(cats, menus), lang)
  {
    CategoriesShown(cats, lang);
    MenusShown(menus, lang);
    TranslatedsAppend(CategoryItems(cats, lang), MenusItems(menus, lang));
    ShownAllAppend(SettingsForm.CategoryEntries(cats), SettingsForm.MenusEntries(menus), lang);
  }
}
