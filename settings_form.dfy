/** The store settings page: the supported-language list and its toggle,
    and the count of catalogue texts still lacking a translation in one of
    the non-Korean languages. The catalogue is given as fetched (menus with
    their option groups and options nested). */
module SettingsForm {
  import opened Base
  import opened Catalog
  import TranslateRoute

  /** `JSON.parse(data.supportedLanguages || '["ko"]')`: an absent setting
      means Korean only. */
  function InitialLanguages(setting: Option<seq<string>>): (r: seq<string>)
    ensures setting.None? ==> r == ["ko"]
    ensures setting.Some? ==> r == setting.value
  {
    match setting
    case None => ["ko"]
    case Some(langs) => langs
  }

  /** `langs.filter(l => l !== code)`. */
  function Without(langs: seq<string>, code: string): (r: seq<string>)
    ensures code !in r
    ensures forall x | x != code :: x in r <==> x in langs
    ensures |r| <= |langs|
  {
    if langs == [] then []
    else
      var init := Without(langs[..|langs| - 1], code);
      var last := langs[|langs| - 1];
      assert langs == langs[..|langs| - 1] + [last];
      if last == code then init else init + [last]
  }

  function NonKorean(langs: seq<string>): seq<string> {
    Without(langs, "ko")
  }

  /** `toggleLanguage`: Korean cannot be toggled; a listed code is removed,
      an unlisted one appended. */
  function ToggleLanguage(langs: seq<string>, code: string): (r: seq<string>)
    ensures code == "ko" ==> r == langs
    ensures code != "ko" && code in langs ==> code !in r && forall x | x != code :: x in r <==> x in langs
    ensures code != "ko" && code !in langs ==> r == langs + [code]
  {
    if code == "ko" then langs
    else if code in langs then Without(langs, code)
    else langs + [code]
  }

  // ---------------------------------------------------------------------
  // The missing-translation count
  // ---------------------------------------------------------------------

  /** `isMissing`: no non-blank text for lang; malformed JSON counts as
      missing. */
  function Miss(json: Translations, lang: string): nat {
    if TranslateRoute.HasTrans(json, lang) then 0 else 1
  }

  /** The translation maps the count inspects, in the order the page walks
      them: option names of a group after the group's own name. */
  function OptionEntries(options: seq<OptionItem>): seq<Translations> {
    if options == [] then []
    else OptionEntries(options[..|options| - 1]) + [options[|options| - 1].nameTranslations]
  }

  function GroupEntries(groups: seq<OptionGroup>): seq<Translations> {
    if groups == [] then []
    else
      var g := groups[|groups| - 1];
      GroupEntries(groups[..|groups| - 1]) + ([g.nameTranslations] + OptionEntries(g.options))
  }

  /** A menu's name, its description when it is not empty, then its groups. */
  function MenuEntries(m: Menu): seq<Translations> {
    [m.nameTranslations]
      + (if m.description != "" then [m.descriptionTranslations] else [])
      + GroupEntries(m.optionGroups)
  }

  function MenusEntries(menus: seq<Menu>): seq<Translations> {
    if menus == [] then []
    else MenusEntries(menus[..|menus| - 1]) + MenuEntries(menus[|menus| - 1])
  }

  function CategoryEntries(cats: seq<Category>): seq<Translations> {
    if cats == [] then []
    else CategoryEntries(cats[..|cats| - 1]) + [cats[|cats| - 1].nameTranslations]
  }

  function AllEntries(cats: seq<Category>, menus: seq<Menu>): seq<Translations> {
    CategoryEntries(cats) + MenusEntries(menus)
  }

  /** The entries of es without a translation for lang. */
  function Untranslated(es: seq<Translations>, lang: string): nat {
    if es == [] then 0
    else Untranslated(es[..|es| - 1], lang) + Miss(es[|es| - 1], lang)
  }

  /** The languages of langs for which e has no translation. */
  function Row(e: Translations, langs: seq<string>): nat {
    if langs == [] then 0
    else Row(e, langs[..|langs| - 1]) + Miss(e, langs[|langs| - 1])
  }

  /** Entry by entry, then language by language: the order the page counts in. */
  function PairCount(es: seq<Translations>, langs: seq<string>): nat {
    if es == [] then 0
    else PairCount(es[..|es| - 1], langs) + Row(es[|es| - 1], langs)
  }

  /** The number of (entry, non-Korean language) pairs without a
      translation, counted language by language. */
  function MissingCount(langs: seq<string>, cats: seq<Category>, menus: seq<Menu>): nat {
    LangCount(AllEntries(cats, menus), NonKorean(langs))
  }

  function LangCount(es: seq<Translations>, langs: seq<string>): nat {
    if langs == [] then 0
    else LangCount(es, langs[..|langs| - 1]) + Untranslated(es, langs[|langs| - 1])
  }

  lemma {:induction false} UntranslatedAppend(a: seq<Translations>, b: seq<Translations>, lang: string)
    ensures Untranslated(a + b, lang) == Untranslated(a, lang) + Untranslated(b, lang)
  {
    if b == [] {
      assert a + b == a;
    } else {
      assert (a + b)[..|a + b| - 1] == a + b[..|b| - 1];
      UntranslatedAppend(a, b[..|b| - 1], lang);
    }
  }

  lemma {:induction false} PairCountAppend(a: seq<Translations>, b: seq<Translations>, langs: seq<string>)
    ensures PairCount(a + b, langs) == PairCount(a, langs) + PairCount(b, langs)
  {
    if b == [] {
      assert a + b == a;
    } else {
      assert (a + b)[..|a + b| - 1] == a + b[..|b| - 1];
      PairCountAppend(a, b[..|b| - 1], langs);
    }
  }

  /** Adding one entry adds its row to every language's count. */
  lemma {:induction false} LangCountSnoc(es: seq<Translations>, e: Translations, langs: seq<string>)
    ensures LangCount(es + [e], langs) == LangCount(es, langs) + Row(e, langs)
  {
    if langs != [] {
      var init := langs[..|langs| - 1];
      LangCountSnoc(es, e, init);
      assert (es + [e])[..|es + [e]| - 1] == es;
    }
  }

  /** Counting entry by entry or language by language gives the same number. */
  lemma {:induction false} PairCountIsLangCount(es: seq<Translations>, langs: seq<string>)
    ensures PairCount(es, langs) == LangCount(es, langs)
  {
    if es == [] {
      LangCountEmpty(langs);
    } else {
      var init := es[..|es| - 1];
      PairCountIsLangCount(init, langs);
      LangCountSnoc(init, es[|es| - 1], langs);
      assert init + [es[|es| - 1]] == es;
    }
  }

  lemma {:induction false} LangCountEmpty(langs: seq<string>)
    ensures LangCount([], langs) == 0
  {
    if langs != [] {
      LangCountEmpty(langs[..|langs| - 1]);
    }
  }

  lemma PairCountSingle(e: Translations, langs: seq<string>)
    ensures PairCount([e], langs) == Row(e, langs)
  {
    assert [e][..0] == [];
  }

  // ---------------------------------------------------------------------
  // The counting loops
  // ---------------------------------------------------------------------

  /** One group, one language: the group name and each option name. */
  method CountGroup(g: OptionGroup, lang: string) returns (missing: nat)
    ensures missing == Untranslated([g.nameTranslations] + OptionEntries(g.options), lang)
  {
    missing := 0;
    if !TranslateRoute.HasTrans(g.nameTranslations, lang) {
      missing := missing + 1;
    }
    UntranslatedSingle(g.nameTranslations, lang);
    for k := 0 to |g.options|
      invariant missing == Untranslated([g.nameTranslations], lang) + Untranslated(OptionEntries(g.options[..k]), lang)
    {
      var o := g.options[k];
      OptionEntriesStep(g.options, k, lang);
      if !TranslateRoute.HasTrans(o.nameTranslations, lang) {
        missing := missing + 1;
      }
    }
    assert g.options[..|g.options|] == g.options;
    UntranslatedAppend([g.nameTranslations], OptionEntries(g.options), lang);
  }

  lemma UntranslatedSingle(e: Translations, lang: string)
    ensures Untranslated([e], lang) == Miss(e, lang)
  {
    assert [e][..0] == [];
  }

  /** Counting one more option of a group adds that option's own miss. */
  lemma OptionEntriesStep(os: seq<OptionItem>, k: nat, lang: string)
    requires k < |os|
    ensures Untranslated(OptionEntries(os[..k + 1]), lang)
              == Untranslated(OptionEntries(os[..k]), lang) + Miss(os[k].nameTranslations, lang)
  {
    assert os[..k + 1][..k] == os[..k];
    assert OptionEntries(os[..k + 1]) == OptionEntries(os[..k]) + [os[k].nameTranslations];
    UntranslatedAppend(OptionEntries(os[..k]), [os[k].nameTranslations], lang);
    UntranslatedSingle(os[k].nameTranslations, lang);
  }

  /** One menu, one language: name, non-empty description, then groups. */
  method CountMenu(m: Menu, lang: string) returns (missing: nat)
    ensures missing == Untranslated(MenuEntries(m), lang)
  {
    var head := [m.nameTranslations] + (if m.description != "" then [m.descriptionTranslations] else []);
    missing := 0;
    if !TranslateRoute.HasTrans(m.nameTranslations, lang) {
      missing := missing + 1;
    }
    if m.description != "" && !TranslateRoute.HasTrans(m.descriptionTranslations, lang) {
      missing := missing + 1;
    }
    assert missing == Untranslated(head, lang) by {
      assert [m.nameTranslations][..0] == [];
      UntranslatedAppend([m.nameTranslations], if m.description != "" then [m.descriptionTranslations] else [], lang);
      assert [m.descriptionTranslations][..0] == [];
    }
    var before := missing;
    for k := 0 to |m.optionGroups|
      invariant missing == before + Untranslated(GroupEntries(m.optionGroups[..k]), lang)
    {
      var g := m.optionGroups[k];
      assert m.optionGroups[..k + 1][..k] == m.optionGroups[..k];
      UntranslatedAppend(GroupEntries(m.optionGroups[..k]), [g.nameTranslations] + OptionEntries(g.options), lang);
      var n := CountGroup(g, lang);
      missing := missing + n;
    }
    assert m.optionGroups[..|m.optionGroups|] == m.optionGroups;
    UntranslatedAppend(head, GroupEntries(m.optionGroups), lang);
  }

  /** The category loop of `checkMissingTranslations`. */
  method CountCategories(cats: seq<Category>, nonKo: seq<string>) returns (missing: nat)
    ensures missing == PairCount(CategoryEntries(cats), nonKo)
  {
    missing := 0;
    for i := 0 to |cats|
      invariant missing == PairCount(CategoryEntries(cats[..i]), nonKo)
    {
      var cat := cats[i];
      assert cats[..i + 1][..i] == cats[..i];
      PairCountAppend(CategoryEntries(cats[..i]), [cat.nameTranslations], nonKo);
      PairCountSingle(cat.nameTranslations, nonKo);
      var before := missing;
      for j := 0 to |nonKo|
        invariant missing == before + Row(cat.nameTranslations, nonKo[..j])
      {
        assert nonKo[..j + 1][..j] == nonKo[..j];
        if !TranslateRoute.HasTrans(cat.nameTranslations, nonKo[j]) {
          missing := missing + 1;
        }
      }
      assert nonKo[..|nonKo|] == nonKo;
    }
    assert cats[..|cats|] == cats;
  }

  /** The menu loop of `checkMissingTranslations`. */
  method CountMenus(menus: seq<Menu>, nonKo: seq<string>) returns (missing: nat)
    ensures missing == PairCount(MenusEntries(menus), nonKo)
  {
    missing := 0;
    for i := 0 to |menus|
      invariant missing == PairCount(MenusEntries(menus[..i]), nonKo)
    {
      var menu := menus[i];
      assert menus[..i + 1][..i] == menus[..i];
      PairCountAppend(MenusEntries(menus[..i]), MenuEntries(menu), nonKo);
      PairCountIsLangCount(MenuEntries(menu), nonKo);
      var before := missing;
      for j := 0 to |nonKo|
        invariant missing == before + LangCount(MenuEntries(menu), nonKo[..j])
      {
        assert nonKo[..j + 1][..j] == nonKo[..j];
        var n := CountMenu(menu, nonKo[j]);
        missing := missing + n;
      }
      assert nonKo[..|nonKo|] == nonKo;
    }
    assert menus[..|menus|] == menus;
  }

  /** `checkMissingTranslations`: every non-Korean language, every
      category, then every menu with its groups and options. */
  method CheckMissingTranslations(langs: seq<string>, cats: seq<Category>, menus: seq<Menu>) returns (missing: nat)
    ensures missing == MissingCount(langs, cats, menus)
  {
    var nonKo := NonKorean(langs);
    if |nonKo| == 0 {
      LangCountEmptyLangs(AllEntries(cats, menus));
      return 0;
    }
    var fromCats := CountCategories(cats, nonKo);
    var fromMenus := CountMenus(menus, nonKo);
    missing := fromCats + fromMenus;
    PairCountAppend(CategoryEntries(cats), MenusEntries(menus), nonKo);
    PairCountIsLangCount(AllEntries(cats, menus), nonKo);
  }

  lemma LangCountEmptyLangs(es: seq<Translations>)
    ensures LangCount(es, []) == 0
  {
  }

  // ---------------------------------------------------------------------
  // Properties
  // ---------------------------------------------------------------------

  /** Korean is never checked: with no other language the count is 0. */
  lemma OnlyKoreanNothingMissing(langs: seq<string>, cats: seq<Category>, menus: seq<Menu>)
    requires forall i | 0 <= i < |langs| :: langs[i] == "ko"
    ensures MissingCount(langs, cats, menus) == 0
  {
    WithoutAll(langs, "ko");
  }

  lemma {:induction false} WithoutAll(xs: seq<string>, code: string)
    requires forall i | 0 <= i < |xs| :: xs[i] == code
    ensures Without(xs, code) == []
  {
    if xs != [] {
      WithoutAll(xs[..|xs| - 1], code);
    }
  }

  /** With the default setting nothing is reported missing. */
  lemma DefaultNothingMissing(cats: seq<Category>, menus: seq<Menu>)
    ensures MissingCount(InitialLanguages(None), cats, menus) == 0
  {
    OnlyKoreanNothingMissing(["ko"], cats, menus);
  }

  /** Every entry of es has a non-blank text for lang. */
  predicate AllTranslated(es: seq<Translations>, lang: string) {
    forall i | 0 <= i < |es| :: TranslateRoute.HasTrans(es[i], lang)
  }

  lemma {:induction false} UntranslatedZeroIff(es: seq<Translations>, lang: string)
    ensures Untranslated(es, lang) == 0 <==> AllTranslated(es, lang)
  {
    if es != [] {
      var init := es[..|es| - 1];
      UntranslatedZeroIff(init, lang);
      AllTranslatedSnoc(es, lang);
    }
  }

  lemma AllTranslatedSnoc(es: seq<Translations>, lang: string)
    requires es != []
    ensures AllTranslated(es, lang) <==>
              AllTranslated(es[..|es| - 1], lang) && TranslateRoute.HasTrans(es[|es| - 1], lang)
  {
    var init := es[..|es| - 1];
    assert forall i | 0 <= i < |init| :: es[i] == init[i];
  }

  lemma {:induction false} LangCountZeroIff(es: seq<Translations>, langs: seq<string>)
    ensures LangCount(es, langs) == 0 <==> forall j | 0 <= j < |langs| :: Untranslated(es, langs[j]) == 0
  {
    if langs != [] {
      var init := langs[..|langs| - 1];
      LangCountZeroIff(es, init);
      EveryLangSnoc(es, langs);
    }
  }

  predicate NoneMissing(es: seq<Translations>, langs: seq<string>) {
    forall j | 0 <= j < |langs| :: Untranslated(es, langs[j]) == 0
  }

  lemma EveryLangSnoc(es: seq<Translations>, langs: seq<string>)
    requires langs != []
    ensures NoneMissing(es, langs) <==>
              NoneMissing(es, langs[..|langs| - 1]) && Untranslated(es, langs[|langs| - 1]) == 0
  {
    var init := langs[..|langs| - 1];
    assert forall j | 0 <= j < |init| :: init[j] == langs[j];
  }

  /** Each entry lacking a translation in some language counts: the count is
      0 exactly when every entry has a non-blank text in every non-Korean
      language. */
  lemma MissingZeroIff(langs: seq<string>, cats: seq<Category>, menus: seq<Menu>)
    ensures MissingCount(langs, cats, menus) == 0 <==>
              forall l | l in NonKorean(langs) :: AllTranslated(AllEntries(cats, menus), l)
  {
    var es := AllEntries(cats, menus);
    var nonKo := NonKorean(langs);
    LangCountZeroIff(es, nonKo);
    forall l | l in nonKo ensures Untranslated(es, l) == 0 <==> AllTranslated(es, l) {
      UntranslatedZeroIff(es, l);
    }
  }

  /** A malformed map is missing in every language checked. */
  lemma {:induction false} MalformedMissingEverywhere(langs: seq<string>)
    ensures Row(None, langs) == |langs|
  {
    if langs != [] {
      MalformedMissingEverywhere(langs[..|langs| - 1]);
    }
  }

  /** Toggling an unlisted language twice restores the list. */
  lemma ToggleTwice(langs: seq<string>, code: string)
    requires code !in langs
    ensures ToggleLanguage(ToggleLanguage(langs, code), code) == langs
  {
    if code != "ko" {
      WithoutAbsent(langs + [code], code, |langs|);
    }
  }

  /** Removing a code that occurs only at position k deletes position k. */
  lemma {:induction false} WithoutAbsent(xs: seq<string>, code: string, k: nat)
    requires k <= |xs|
    requires forall i | 0 <= i < |xs| && i != k :: xs[i] != code
    requires k < |xs| ==> xs[k] == code
    ensures Without(xs, code) == xs[..k] + (if k < |xs| then xs[k + 1..] else [])
  {
    var pre := xs[..k];
    assert forall i | 0 <= i < |pre| :: pre[i] == xs[i];
    WithoutNone(pre, code);
    if k < |xs| {
      var post := xs[k + 1..];
      assert xs == pre + [code] + post;
      WithoutAppend(pre + [code], post, code);
      WithoutAppend(pre, [code], code);
      assert Without([code], code) == [] by {
        assert [code][..0] == [];
      }
      assert forall i | 0 <= i < |post| :: post[i] == xs[k + 1 + i];
      WithoutNone(post, code);
    } else {
      assert xs == pre;
    }
  }

  /** Without a code, nothing is removed. */
  lemma {:induction false} WithoutNone(xs: seq<string>, code: string)
    requires forall i | 0 <= i < |xs| :: xs[i] != code
    ensures Without(xs, code) == xs
  {
    if xs != [] {
      var init := xs[..|xs| - 1];
      assert forall i | 0 <= i < |init| :: init[i] == xs[i];
      WithoutNone(init, code);
      assert xs == init + [xs[|xs| - 1]];
    }
  }

  /** Removal distributes over concatenation. */
  lemma {:induction false} WithoutAppend(a: seq<string>, b: seq<string>, code: string)
    ensures Without(a + b, code) == Without(a, code) + Without(b, code)
  {
    if b == [] {
      assert a + b == a;
    } else {
      var b0 := b[..|b| - 1];
      WithoutAppend(a, b0, code);
      assert (a + b)[..|a + b| - 1] == a + b0 && (a + b)[|a + b| - 1] == b[|b| - 1];
    }
  }

  /** Toggling removes every occurrence and keeps the other codes in order. */
  lemma {:induction false} ToggleKeepsOrder(langs: seq<string>, code: string)
    requires code != "ko" && code in langs
    ensures ToggleLanguage(langs, code) == Without(langs, code)
    ensures |ToggleLanguage(langs, code)| < |langs|
  {
    WithoutShrinks(langs, code);
  }

  lemma {:induction false} WithoutShrinks(xs: seq<string>, code: string)
    requires code in xs
    ensures |Without(xs, code)| < |xs|
  {
    var init := xs[..|xs| - 1];
    assert xs == init + [xs[|xs| - 1]];
    if xs[|xs| - 1] != code {
      WithoutShrinks(init, code);
    }
  }
}
