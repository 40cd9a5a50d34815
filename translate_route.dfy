/** The bulk machine-translation endpoint: it collects every translatable
    text of the catalogue (optionally only those still untranslated for the
    target language), hands the list to the translation service, and writes
    each returned text into the target-language entry of the matching row.
    The four tables are given as read at the start of the request; the
    service's answer is a parameter (None when the call fails); the writes
    are returned as the tables after the request. */
module TranslateRoute {
  import opened Base
  import opened Catalog

  /** The catalogue tables, each row with its translation columns parsed. */
  datatype Tables = Tables(
    categories: seq<Category>,
    menus: seq<Menu>,
    groups: seq<OptionGroup>,
    options: seq<OptionItem>)

  /** One text sent for translation. */
  datatype WorkItem = WorkItem(id: int, kind: string, field: string, value: string)

  /** A translatable text together with the translations it already has. */
  datatype Candidate = Candidate(id: int, kind: string, field: string, value: string, translations: Translations)

  /** `hasTrans`: the parsed map has a text for lang that is not blank after
      trimming; malformed JSON counts as untranslated. */
  function HasTrans(json: Translations, lang: string): (r: bool)
    ensures r <==> json.Some? && lang in json.value && !IsBlank(json.value[lang])
  {
    if json.Some? && lang in json.value then
      TrimEmptyIffBlank(json.value[lang]);
      Trim(json.value[lang]) != ""
    else false
  }

  // ---------------------------------------------------------------------
  // The work list
  // ---------------------------------------------------------------------

  function CategoryCandidates(cats: seq<Category>): seq<Candidate> {
    if cats == [] then []
    else
      var c := cats[|cats| - 1];
      CategoryCandidates(cats[..|cats| - 1]) + [Candidate(c.id, "category", "name", c.name, c.nameTranslations)]
  }

  /** Per menu its name, then its description when that is not empty. */
  function MenuCandidates(menus: seq<Menu>): seq<Candidate> {
    if menus == [] then []
    else
      var m := menus[|menus| - 1];
      MenuCandidates(menus[..|menus| - 1])
        + [Candidate(m.id, "menu", "name", m.name, m.nameTranslations)]
        + (if m.description != "" then [Candidate(m.id, "menu", "description", m.description, m.descriptionTranslations)] else [])
  }

  function GroupCandidates(groups: seq<OptionGroup>): seq<Candidate> {
    if groups == [] then []
    else
      var g := groups[|groups| - 1];
      GroupCandidates(groups[..|groups| - 1]) + [Candidate(g.id, "optionGroup", "name", g.name, g.nameTranslations)]
  }

  function OptionCandidates(options: seq<OptionItem>): seq<Candidate> {
    if options == [] then []
    else
      var o := options[|options| - 1];
      OptionCandidates(options[..|options| - 1]) + [Candidate(o.id, "option", "name", o.name, o.nameTranslations)]
  }

  /** Every translatable text: categories, then menus, then groups, then options. */
  function Candidates(t: Tables): seq<Candidate> {
    CategoryCandidates(t.categories) + MenuCandidates(t.menus) + GroupCandidates(t.groups) + OptionCandidates(t.options)
  }

  predicate Skipped(c: Candidate, lang: string, onlyMissing: bool) {
    onlyMissing && HasTrans(c.translations, lang)
  }

  function ToWork(c: Candidate): WorkItem {
    WorkItem(c.id, c.kind, c.field, c.value)
  }

  /** The candidates that are not skipped, in order. */
  function Queue(cs: seq<Candidate>, lang: string, onlyMissing: bool): seq<WorkItem> {
    if cs == [] then []
    else
      var c := cs[|cs| - 1];
      Queue(cs[..|cs| - 1], lang, onlyMissing) + (if Skipped(c, lang, onlyMissing) then [] else [ToWork(c)])
  }

  lemma {:induction false} QueueAppend(a: seq<Candidate>, b: seq<Candidate>, lang: string, onlyMissing: bool)
    ensures Queue(a + b, lang, onlyMissing) == Queue(a, lang, onlyMissing) + Queue(b, lang, onlyMissing)
  {
    if b == [] {
      assert a + b == a;
    } else {
      assert (a + b)[..|a + b| - 1] == a + b[..|b| - 1];
      QueueAppend(a, b[..|b| - 1], lang, onlyMissing);
    }
  }

  lemma QueueSingle(c: Candidate, lang: string, onlyMissing: bool)
    ensures Queue([c], lang, onlyMissing) == if Skipped(c, lang, onlyMissing) then [] else [ToWork(c)]
  {
    assert [c][..0] == [];
  }

  /** The category loop of the handler. */
  method QueueCategories(cats: seq<Category>, lang: string, onlyMissing: bool) returns (items: seq<WorkItem>)
    ensures items == Queue(CategoryCandidates(cats), lang, onlyMissing)
  {
    items := [];
    for i := 0 to |cats|
      invariant items == Queue(CategoryCandidates(cats[..i]), lang, onlyMissing)
    {
      var cat := cats[i];
      var c := Candidate(cat.id, "category", "name", cat.name, cat.nameTranslations);
      assert cats[..i + 1][..i] == cats[..i];
      QueueAppend(CategoryCandidates(cats[..i]), [c], lang, onlyMissing);
      QueueSingle(c, lang, onlyMissing);
      if onlyMissing && HasTrans(cat.nameTranslations, lang) {
        continue;
      }
      items := items + [WorkItem(cat.id, "category", "name", cat.name)];
    }
    assert cats[..|cats|] == cats;
  }

  /** The menu loop of the handler: the name, then a non-empty description. */
  method QueueMenus(menus: seq<Menu>, lang: string, onlyMissing: bool) returns (items: seq<WorkItem>)
    ensures items == Queue(MenuCandidates(menus), lang, onlyMissing)
  {
    items := [];
    for i := 0 to |menus|
      invariant items == Queue(MenuCandidates(menus[..i]), lang, onlyMissing)
    {
      var queued := QueueMenu(menus[i], lang, onlyMissing);
      MenuQueueStep(menus, i, lang, onlyMissing);
      items := items + queued;
    }
    assert menus[..|menus|] == menus;
  }

  /** One menu's turn in the loop: its name, then its non-empty description,
      each unless skipped. */
  method QueueMenu(menu: Menu, lang: string, onlyMissing: bool) returns (queued: seq<WorkItem>)
    ensures queued == Queue(MenuCandidates([menu]), lang, onlyMissing)
  {
    var nameC := Candidate(menu.id, "menu", "name", menu.name, menu.nameTranslations);
    var descC := Candidate(menu.id, "menu", "description", menu.description, menu.descriptionTranslations);
    var descs := if menu.description != "" then [descC] else [];
    assert [menu][..0] == [];
    assert MenuCandidates([menu]) == [nameC] + descs;
    QueueAppend([nameC], descs, lang, onlyMissing);
    QueueSingle(nameC, lang, onlyMissing);
    QueueSingle(descC, lang, onlyMissing);
    queued := [];
    if !(onlyMissing && HasTrans(menu.nameTranslations, lang)) {
      queued := queued + [WorkItem(menu.id, "menu", "name", menu.name)];
    }
    if menu.description != "" {
      if !(onlyMissing && HasTrans(menu.descriptionTranslations, lang)) {
        queued := queued + [WorkItem(menu.id, "menu", "description", menu.description)];
      }
    }
  }

  /** The queue of one more menu is the queue so far and that menu's own. */
  lemma MenuQueueStep(menus: seq<Menu>, i: nat, lang: string, onlyMissing: bool)
    requires i < |menus|
    ensures Queue(MenuCandidates(menus[..i + 1]), lang, onlyMissing)
              == Queue(MenuCandidates(menus[..i]), lang, onlyMissing) + Queue(MenuCandidates([menus[i]]), lang, onlyMissing)
  {
    assert menus[..i + 1][..i] == menus[..i];
    assert [menus[i]][..0] == [];
    assert MenuCandidates(menus[..i + 1]) == MenuCandidates(menus[..i]) + MenuCandidates([menus[i]]);
    QueueAppend(MenuCandidates(menus[..i]), MenuCandidates([menus[i]]), lang, onlyMissing);
  }

  /** The option-group loop of the handler. */
  method QueueGroups(groups: seq<OptionGroup>, lang: string, onlyMissing: bool) returns (items: seq<WorkItem>)
    ensures items == Queue(GroupCandidates(groups), lang, onlyMissing)
  {
    items := [];
    for i := 0 to |groups|
      invariant items == Queue(GroupCandidates(groups[..i]), lang, onlyMissing)
    {
      var group := groups[i];
      var c := Candidate(group.id, "optionGroup", "name", group.name, group.nameTranslations);
      assert groups[..i + 1][..i] == groups[..i];
      QueueAppend(GroupCandidates(groups[..i]), [c], lang, onlyMissing);
      QueueSingle(c, lang, onlyMissing);
      if onlyMissing && HasTrans(group.nameTranslations, lang) {
        continue;
      }
      items := items + [WorkItem(group.id, "optionGroup", "name", group.name)];
    }
    assert groups[..|groups|] == groups;
  }

  /** The option loop of the handler. */
  method QueueOptions(options: seq<OptionItem>, lang: string, onlyMissing: bool) returns (items: seq<WorkItem>)
    ensures items == Queue(OptionCandidates(options), lang, onlyMissing)
  {
    items := [];
    for i := 0 to |options|
      invariant items == Queue(OptionCandidates(options[..i]), lang, onlyMissing)
    {
      var opt := options[i];
      var c := Candidate(opt.id, "option", "name", opt.name, opt.nameTranslations);
      assert options[..i + 1][..i] == options[..i];
      QueueAppend(OptionCandidates(options[..i]), [c], lang, onlyMissing);
      QueueSingle(c, lang, onlyMissing);
      if onlyMissing && HasTrans(opt.nameTranslations, lang) {
        continue;
      }
      items := items + [WorkItem(opt.id, "option", "name", opt.name)];
    }
    assert options[..|options|] == options;
  }

  /** The work list, in the order the handler builds it. */
  method BuildQueue(t: Tables, lang: string, onlyMissing: bool) returns (items: seq<WorkItem>)
    ensures items == Queue(Candidates(t), lang, onlyMissing)
  {
    var a := QueueCategories(t.categories, lang, onlyMissing);
    var b := QueueMenus(t.menus, lang, onlyMissing);
    var c := QueueGroups(t.groups, lang, onlyMissing);
    var d := QueueOptions(t.options, lang, onlyMissing);
    items := a + b + c + d;
    var cats := CategoryCandidates(t.categories);
    var ms := MenuCandidates(t.menus);
    var gs := GroupCandidates(t.groups);
    QueueAppend(cats, ms, lang, onlyMissing);
    QueueAppend(cats + ms, gs, lang, onlyMissing);
    QueueAppend(cats + ms + gs, OptionCandidates(t.options), lang, onlyMissing);
  }

  // ---------------------------------------------------------------------
  // Writing the results
  // ---------------------------------------------------------------------

  /** A text the translation service returned, tagged as it was sent. */
  datatype TranslationResult = TranslationResult(id: int, kind: string, field: string, value: string)

  /** `categories.find((c) => c.id === id)`: the first category with that id. */
  function FindCategory(cats: seq<Category>, id: int): (r: Option<Category>)
    ensures r.Some? ==> r.value in cats && r.value.id == id
    ensures r.None? <==> forall i | 0 <= i < |cats| :: cats[i].id != id
    ensures r.Some? ==> exists i | 0 <= i < |cats| :: cats[i] == r.value && forall j | 0 <= j < i :: cats[j].id != id
  {
    if cats == [] then None
    else if cats[0].id == id then Some(cats[0])
    else
      assert forall i | 1 <= i < |cats| :: cats[i] == cats[1..][i - 1];
      FindCategory(cats[1..], id)
  }

  /** `menus.find((m) => m.id === id)`: the first menu with that id. */
  function FindMenu(menus: seq<Menu>, id: int): (r: Option<Menu>)
    ensures r.Some? ==> r.value in menus && r.value.id == id
    ensures r.None? <==> forall i | 0 <= i < |menus| :: menus[i].id != id
    ensures r.Some? ==> exists i | 0 <= i < |menus| :: menus[i] == r.value && forall j | 0 <= j < i :: menus[j].id != id
  {
    if menus == [] then None
    else if menus[0].id == id then Some(menus[0])
    else
      assert forall i | 1 <= i < |menus| :: menus[i] == menus[1..][i - 1];
      FindMenu(menus[1..], id)
  }

  /** `prisma.category.update({ where: { id }, ... })` on the name column. */
  function SetCategoryNames(cats: seq<Category>, id: int, tr: Translations): seq<Category> {
    seq(|cats|, i requires 0 <= i < |cats| => if cats[i].id == id then cats[i].(nameTranslations := tr) else cats[i])
  }

  function SetMenuNames(menus: seq<Menu>, id: int, tr: Translations): seq<Menu> {
    seq(|menus|, i requires 0 <= i < |menus| => if menus[i].id == id then menus[i].(nameTranslations := tr) else menus[i])
  }

  function SetMenuDescriptions(menus: seq<Menu>, id: int, tr: Translations): seq<Menu> {
    seq(|menus|, i requires 0 <= i < |menus| => if menus[i].id == id then menus[i].(descriptionTranslations := tr) else menus[i])
  }

  function SetGroupNames(groups: seq<OptionGroup>, id: int, tr: Translations): seq<OptionGroup> {
    seq(|groups|, i requires 0 <= i < |groups| => if groups[i].id == id then groups[i].(nameTranslations := tr) else groups[i])
  }

  function SetOptionNames(options: seq<OptionItem>, id: int, tr: Translations): seq<OptionItem> {
    seq(|options|, i requires 0 <= i < |options| => if options[i].id == id then options[i].(nameTranslations := tr) else options[i])
  }

  /** One iteration of the writing loop. The row is looked up in the tables
      as first read, its map is parsed (None: JSON.parse throws, which ends
      the request), the target language is set and the row is written.
      Unknown kinds, fields and ids write nothing. */
  function ApplyOne(snap: Tables, db: Tables, t: TranslationResult, lang: string): Option<Tables> {
    if t.kind == "category" then
      match FindCategory(snap.categories, t.id)
      case None => Some(db)
      case Some(c) =>
        if c.nameTranslations.None? then None
        else Some(db.(categories := SetCategoryNames(db.categories, t.id, Some(c.nameTranslations.value[lang := t.value]))))
    else if t.kind == "menu" then
      match FindMenu(snap.menus, t.id)
      case None => Some(db)
      case Some(m) =>
        if t.field == "name" then
          if m.nameTranslations.None? then None
          else Some(db.(menus := SetMenuNames(db.menus, t.id, Some(m.nameTranslations.value[lang := t.value]))))
        else if t.field == "description" then
          if m.descriptionTranslations.None? then None
          else Some(db.(menus := SetMenuDescriptions(db.menus, t.id, Some(m.descriptionTranslations.value[lang := t.value]))))
        else Some(db)
    else if t.kind == "optionGroup" then
      match FindGroup(snap.groups, t.id)
      case None => Some(db)
      case Some(g) =>
        if g.nameTranslations.None? then None
        else Some(db.(groups := SetGroupNames(db.groups, t.id, Some(g.nameTranslations.value[lang := t.value]))))
    else if t.kind == "option" then
      match FindOption(snap.options, t.id)
      case None => Some(db)
      case Some(o) =>
        if o.nameTranslations.None? then None
        else Some(db.(options := SetOptionNames(db.options, t.id, Some(o.nameTranslations.value[lang := t.value]))))
    else Some(db)
  }

  /** The tables after writing the results in order, and whether every
      write went through (false: a malformed map ended the request; the
      earlier writes stay). */
  function ApplyAll(snap: Tables, db: Tables, ts: seq<TranslationResult>, lang: string): (Tables, bool)
    decreases |ts|
  {
    if ts == [] then (db, true)
    else
      match ApplyOne(snap, db, ts[0], lang)
      case None => (db, false)
      case Some(next) => ApplyAll(snap, next, ts[1..], lang)
  }

  /** The writing loop of the handler. */
  method ApplyResults(snap: Tables, ts: seq<TranslationResult>, lang: string) returns (db: Tables, ok: bool)
    ensures (db, ok) == ApplyAll(snap, snap, ts, lang)
  {
    db := snap;
    for i := 0 to |ts|
      invariant ApplyAll(snap, db, ts[i..], lang) == ApplyAll(snap, snap, ts, lang)
    {
      assert ts[i..][1..] == ts[i + 1..];
      var next := ApplyOne(snap, db, ts[i], lang);
      if next.None? {
        return db, false;
      }
      db := next.value;
    }
    assert ts[|ts|..] == [];
    ok := true;
  }

  datatype Response =
    | Translated(translatedCount: nat)
    | MissingLanguage   // 400 VALIDATION_ERROR
    | ServiceError      // 502 GEMINI_API_ERROR

  /** `POST /api/translate`. */
  method Translate(targetLanguage: Option<string>, onlyMissing: bool, db: Tables,
                   service: Option<seq<TranslationResult>>) returns (resp: Response, after: Tables)
    ensures targetLanguage.None? || targetLanguage.value == "" ==> resp == MissingLanguage && after == db
    ensures targetLanguage.Some? && targetLanguage.value != "" ==>
              var lang := targetLanguage.value;
              && (Queue(Candidates(db), lang, onlyMissing) == [] ==> resp == Translated(0) && after == db)
              && (Queue(Candidates(db), lang, onlyMissing) != [] && service.None? ==> resp == ServiceError && after == db)
              && (Queue(Candidates(db), lang, onlyMissing) != [] && service.Some? ==>
                    var (tables, ok) := ApplyAll(db, db, service.value, lang);
                    after == tables && resp == if ok then Translated(|service.value|) else ServiceError)
  {
    if targetLanguage.None? || targetLanguage.value == "" {
      return MissingLanguage, db;
    }
    var lang := targetLanguage.value;
    var items := BuildQueue(db, lang, onlyMissing);
    if |items| == 0 {
      return Translated(0), db;
    }
    if service.None? {
      return ServiceError, db;
    }
    var ok;
    after, ok := ApplyResults(db, service.value, lang);
    resp := if ok then Translated(|service.value|) else ServiceError;
  }

  // ---------------------------------------------------------------------
  // Properties
  // ---------------------------------------------------------------------

  /** Without `onlyMissing` every candidate is queued, in order. */
  lemma {:induction false} QueueAll(cs: seq<Candidate>, lang: string)
    ensures |Queue(cs, lang, false)| == |cs|
    ensures forall i | 0 <= i < |cs| :: Queue(cs, lang, false)[i] == ToWork(cs[i])
  {
    if cs != [] {
      QueueAll(cs[..|cs| - 1], lang);
    }
  }

  /** With `onlyMissing` exactly the candidates without a translation for
      the language are queued. */
  lemma {:induction false} QueueMissing(cs: seq<Candidate>, lang: string)
    ensures forall w :: w in Queue(cs, lang, true) <==>
              exists i | 0 <= i < |cs| :: !HasTrans(cs[i].translations, lang) && w == ToWork(cs[i])
  {
    if cs != [] {
      QueueMissing(cs[..|cs| - 1], lang);
      forall w ensures w in Queue(cs, lang, true) <==> MissingAt(cs, lang, w) {
        MissingAtSnoc(cs, lang, w);
      }
    }
  }

  /** Some candidate of cs lacks the translation and becomes w. */
  predicate MissingAt(cs: seq<Candidate>, lang: string, w: WorkItem) {
    exists i | 0 <= i < |cs| :: !HasTrans(cs[i].translations, lang) && w == ToWork(cs[i])
  }

  lemma MissingAtSnoc(cs: seq<Candidate>, lang: string, w: WorkItem)
    requires cs != []
    ensures MissingAt(cs, lang, w) <==>
              MissingAt(cs[..|cs| - 1], lang, w) || (!HasTrans(cs[|cs| - 1].translations, lang) && w == ToWork(cs[|cs| - 1]))
  {
    var init := cs[..|cs| - 1];
    if MissingAt(cs, lang, w) {
      var i :| 0 <= i < |cs| && !HasTrans(cs[i].translations, lang) && w == ToWork(cs[i]);
      if i < |init| {
        assert cs[i] == init[i];
      }
    }
    if MissingAt(init, lang, w) {
      var i :| 0 <= i < |init| && !HasTrans(init[i].translations, lang) && w == ToWork(init[i]);
      assert cs[i] == init[i];
    }
  }

  lemma {:induction false} MenuCandidatesDescriptions(menus: seq<Menu>)
    ensures forall c | c in MenuCandidates(menus) :: c.kind == "menu" && (c.field == "description" ==> c.value != "")
  {
    if menus != [] {
      MenuCandidatesDescriptions(menus[..|menus| - 1]);
    }
  }

  lemma {:induction false} OtherCandidatesKinds(t: Tables)
    ensures forall c | c in CategoryCandidates(t.categories) :: c.kind == "category" && c.field == "name"
    ensures forall c | c in GroupCandidates(t.groups) :: c.kind == "optionGroup" && c.field == "name"
    ensures forall c | c in OptionCandidates(t.options) :: c.kind == "option" && c.field == "name"
  {
    CategoryKinds(t.categories);
    GroupKinds(t.groups);
    OptionKinds(t.options);
  }

  lemma {:induction false} CategoryKinds(cats: seq<Category>)
    ensures forall c | c in CategoryCandidates(cats) :: c.kind == "category" && c.field == "name"
  {
    if cats != [] {
      CategoryKinds(cats[..|cats| - 1]);
    }
  }

  lemma {:induction false} GroupKinds(groups: seq<OptionGroup>)
    ensures forall c | c in GroupCandidates(groups) :: c.kind == "optionGroup" && c.field == "name"
  {
    if groups != [] {
      GroupKinds(groups[..|groups| - 1]);
    }
  }

  lemma {:induction false} OptionKinds(options: seq<OptionItem>)
    ensures forall c | c in OptionCandidates(options) :: c.kind == "option" && c.field == "name"
  {
    if options != [] {
      OptionKinds(options[..|options| - 1]);
    }
  }

  lemma {:induction false} QueueFrom(cs: seq<Candidate>, lang: string, onlyMissing: bool)
    ensures forall w | w in Queue(cs, lang, onlyMissing) :: exists c | c in cs :: w == ToWork(c)
  {
    if cs != [] {
      var init := cs[..|cs| - 1];
      QueueFrom(init, lang, onlyMissing);
      forall w | w in Queue(cs, lang, onlyMissing) ensures exists c | c in cs :: w == ToWork(c) {
        if w in Queue(init, lang, onlyMissing) {
          var c :| c in init && w == ToWork(c);
          assert c in cs;
        } else {
          assert w == ToWork(cs[|cs| - 1]);
        }
      }
    }
  }

  /** An empty menu description is never sent for translation. */
  lemma NoEmptyDescription(t: Tables, lang: string, onlyMissing: bool)
    ensures forall w | w in Queue(Candidates(t), lang, onlyMissing) :: w.field == "description" ==> w.value != ""
  {
    MenuCandidatesDescriptions(t.menus);
    OtherCandidatesKinds(t);
    QueueFrom(Candidates(t), lang, onlyMissing);
  }

  /** Writing one category result sets only the target-language entry of
      the rows with that id, from the map as first read; every other row
      and table is unchanged, and an unknown id writes nothing. */
  lemma ApplyCategory(snap: Tables, db: Tables, t: TranslationResult, lang: string)
    requires t.kind == "category"
    ensures FindCategory(snap.categories, t.id).None? ==> ApplyOne(snap, db, t, lang) == Some(db)
    ensures ApplyOne(snap, db, t, lang).Some? && FindCategory(snap.categories, t.id).Some? ==>
              var old_ := FindCategory(snap.categories, t.id).value.nameTranslations;
              var r := ApplyOne(snap, db, t, lang).value;
              && old_.Some?
              && r.menus == db.menus && r.groups == db.groups && r.options == db.options
              && |r.categories| == |db.categories|
              && (forall i | 0 <= i < |db.categories| && db.categories[i].id != t.id :: r.categories[i] == db.categories[i])
              && (forall i | 0 <= i < |db.categories| && db.categories[i].id == t.id ::
                    && r.categories[i] == db.categories[i].(nameTranslations := r.categories[i].nameTranslations)
                    && r.categories[i].nameTranslations.Some?
                    && r.categories[i].nameTranslations.value[lang] == t.value
                    && forall l | l != lang :: (l in r.categories[i].nameTranslations.value <==> l in old_.value)
                                               && (l in old_.value ==> r.categories[i].nameTranslations.value[l] == old_.value[l]))
  {
  }

  /** Writing one menu result touches only the column its field names, and
      in it only the target-language entry. */
  lemma ApplyMenu(snap: Tables, db: Tables, t: TranslationResult, lang: string)
    requires t.kind == "menu"
    ensures FindMenu(snap.menus, t.id).None? || (t.field != "name" && t.field != "description") ==>
              ApplyOne(snap, db, t, lang) == Some(db)
    ensures ApplyOne(snap, db, t, lang).Some? && FindMenu(snap.menus, t.id).Some? && t.field == "name" ==>
              var old_ := FindMenu(snap.menus, t.id).value.nameTranslations;
              var r := ApplyOne(snap, db, t, lang).value;
              && old_.Some?
              && r.categories == db.categories && r.groups == db.groups && r.options == db.options
              && |r.menus| == |db.menus|
              && (forall i | 0 <= i < |db.menus| && db.menus[i].id != t.id :: r.menus[i] == db.menus[i])
              && (forall i | 0 <= i < |db.menus| && db.menus[i].id == t.id ::
                    r.menus[i] == db.menus[i].(nameTranslations := Some(old_.value[lang := t.value])))
    ensures ApplyOne(snap, db, t, lang).Some? && FindMenu(snap.menus, t.id).Some? && t.field == "description" ==>
              var old_ := FindMenu(snap.menus, t.id).value.descriptionTranslations;
              var r := ApplyOne(snap, db, t, lang).value;
              && old_.Some?
              && r.categories == db.categories && r.groups == db.groups && r.options == db.options
              && |r.menus| == |db.menus|
              && (forall i | 0 <= i < |db.menus| && db.menus[i].id != t.id :: r.menus[i] == db.menus[i])
              && (forall i | 0 <= i < |db.menus| && db.menus[i].id == t.id ::
                    r.menus[i] == db.menus[i].(descriptionTranslations := Some(old_.value[lang := t.value])))
  {
  }

  /** Writing one option-group result sets only the target-language entry
      of the groups with that id; every other row and table is unchanged. */
  lemma ApplyGroup(snap: Tables, db: Tables, t: TranslationResult, lang: string)
    requires t.kind == "optionGroup"
    ensures FindGroup(snap.groups, t.id).None? ==> ApplyOne(snap, db, t, lang) == Some(db)
    ensures ApplyOne(snap, db, t, lang).Some? && FindGroup(snap.groups, t.id).Some? ==>
              var old_ := FindGroup(snap.groups, t.id).value.nameTranslations;
              var r := ApplyOne(snap, db, t, lang).value;
              && old_.Some?
              && r.categories == db.categories && r.menus == db.menus && r.options == db.options
              && |r.groups| == |db.groups|
              && (forall i | 0 <= i < |db.groups| && db.groups[i].id != t.id :: r.groups[i] == db.groups[i])
              && (forall i | 0 <= i < |db.groups| && db.groups[i].id == t.id ::
                    r.groups[i] == db.groups[i].(nameTranslations := Some(old_.value[lang := t.value])))
  {
  }

  /** Writing one option result sets only the target-language entry of the
      options with that id; every other row and table is unchanged. */
  lemma ApplyOption(snap: Tables, db: Tables, t: TranslationResult, lang: string)
    requires t.kind == "option"
    ensures FindOption(snap.options, t.id).None? ==> ApplyOne(snap, db, t, lang) == Some(db)
    ensures ApplyOne(snap, db, t, lang).Some? && FindOption(snap.options, t.id).Some? ==>
              var old_ := FindOption(snap.options, t.id).value.nameTranslations;
              var r := ApplyOne(snap, db, t, lang).value;
              && old_.Some?
              && r.categories == db.categories && r.menus == db.menus && r.groups == db.groups
              && |r.options| == |db.options|
              && (forall i | 0 <= i < |db.options| && db.options[i].id != t.id :: r.options[i] == db.options[i])
              && (forall i | 0 <= i < |db.options| && db.options[i].id == t.id ::
                    r.options[i] == db.options[i].(nameTranslations := Some(old_.value[lang := t.value])))
  {
  }

  /** A result of a kind the handler does not know writes nothing. */
  lemma ApplyUnknownKind(snap: Tables, db: Tables, t: TranslationResult, lang: string)
    requires t.kind != "category" && t.kind != "menu" && t.kind != "optionGroup" && t.kind != "option"
    ensures ApplyOne(snap, db, t, lang) == Some(db)
  {
  }

  /** A write that goes through continues with the rest on the new tables. */
  lemma ApplyAllCons(snap: Tables, db: Tables, ts: seq<TranslationResult>, lang: string)
    requires ts != [] && ApplyOne(snap, db, ts[0], lang).Some?
    ensures ApplyAll(snap, db, ts, lang) == ApplyAll(snap, ApplyOne(snap, db, ts[0], lang).value, ts[1..], lang)
  {
  }

  lemma PrefixTail<T>(ts: seq<T>, j: nat)
    requires j < |ts|
    ensures ts[..j + 1] != [] && ts[..j + 1][0] == ts[0] && ts[..j + 1][1..] == ts[1..][..j]
  {
  }

  /** A request stops at the first result whose stored map is malformed;
      the results before it are written, the ones after it are not. */
  lemma {:induction false} ApplyAllStops(snap: Tables, db: Tables, ts: seq<TranslationResult>, lang: string, k: nat)
    requires k < |ts|
    requires forall j | 0 <= j < k :: ApplyOne(snap, ApplyAll(snap, db, ts[..j], lang).0, ts[j], lang).Some?
    requires ApplyOne(snap, ApplyAll(snap, db, ts[..k], lang).0, ts[k], lang).None?
    ensures ApplyAll(snap, db, ts, lang) == (ApplyAll(snap, db, ts[..k], lang).0, false)
    decreases k
  {
    if k == 0 {
      assert ts[..0] == [];
    } else {
      assert ts[..0] == [];
      var first := ApplyOne(snap, db, ts[0], lang);
      assert first.Some?;
      var next := first.value;
      forall j | 0 <= j < k - 1
        ensures ApplyOne(snap, ApplyAll(snap, next, ts[1..][..j], lang).0, ts[1..][j], lang).Some?
      {
        PrefixTail(ts, j);
        ApplyAllCons(snap, db, ts[..j + 1], lang);
      }
      PrefixTail(ts, k - 1);
      ApplyAllCons(snap, db, ts[..k], lang);
      ApplyAllCons(snap, db, ts, lang);
      ApplyAllStops(snap, next, ts[1..], lang, k - 1);
    }
  }
}
