/** The admin menu editor: the option-group and option editing helpers, the
    de-duplicated list of reference images offered for image generation,
    the default generation prompt, and what a submit sends — the validation
    that rejects it, the menu body, and the option-group requests with blank
    groups skipped, blank options dropped and server groups that left the
    form deleted. Server responses (the saved menu id, the ids of the groups
    the server holds) are parameters; requests are returned as values. */
module MenuForm {
  import opened Base

  // ---------------------------------------------------------------------
  // Form state
  // ---------------------------------------------------------------------

  datatype OptionInput = OptionInput(name: string, priceModifier: int)

  /** A group as edited; `id` is absent for a group added in the form. */
  datatype GroupInput = GroupInput(id: Option<int>, name: string, required: bool, options: seq<OptionInput>)

  const BlankOption := OptionInput("", 0)

  /** What `addOptionGroup` appends. */
  const BlankGroup := GroupInput(None, "", false, [BlankOption])

  /** The two fields `updateGroup` can set. */
  datatype GroupEdit = GroupName(name: string) | GroupRequired(required: bool)

  /** The two fields `updateOption` can set. */
  datatype OptionEdit = OptionName(name: string) | OptionPrice(priceModifier: int)

  /** A number that is neither absent nor 0: `!!x`. */
  predicate Truthy(x: Option<int>) {
    x.Some? && x.value != 0
  }

  /** A string that is neither absent nor empty. */
  predicate Present(u: Option<string>) {
    u.Some? && u.value != ""
  }

  /** `g.id` is truthy: the group exists on the server. */
  predicate HasId(g: GroupInput) {
    Truthy(g.id)
  }

  // ---------------------------------------------------------------------
  // Reference images
  // ---------------------------------------------------------------------

  datatype CategoryRef = CategoryRef(id: int, name: string, referenceImageUrl: Option<string>)

  /** A menu of the selected category as fetched for the sibling list. */
  datatype MenuRow = MenuRow(id: int, name: string, imageUrl: Option<string>)

  datatype GalleryImage = GalleryImage(id: int, imageUrl: string, isAiGenerated: bool)

  datatype RefOption = RefOption(url: string, caption: string)

  /** The menus of the category other than the one being edited that have
      an image, in fetched order. A new menu (no id) excludes nothing. */
  function Siblings(menus: seq<MenuRow>, menuId: Option<int>): (r: seq<MenuRow>)
    ensures |r| <= |menus|
    ensures forall m :: m in r <==> m in menus && Some(m.id) != menuId && Present(m.imageUrl)
  {
    if menus == [] then []
    else
      var m := menus[|menus| - 1];
      var p := Siblings(menus[..|menus| - 1], menuId);
      assert menus == menus[..|menus| - 1] + [m];
      if Some(m.id) != menuId && Present(m.imageUrl) then p + [m] else p
  }

  /** `categories.find((c) => c.id === categoryId)?.referenceImageUrl || null`. */
  function CategoryRefImage(categories: seq<CategoryRef>, categoryId: Option<int>): (r: Option<string>)
    ensures r.Some? ==> r.value != "" && categoryId.Some?
    ensures r.Some? ==> exists c :: c in categories && c.id == categoryId.value && c.referenceImageUrl == r
  {
    if categoryId.None? || categories == [] then None
    else if categories[0].id == categoryId.value then
      (if Present(categories[0].referenceImageUrl) then categories[0].referenceImageUrl else None)
    else CategoryRefImage(categories[1..], categoryId)
  }

  function GalleryLabel(img: GalleryImage): string {
    (if img.isAiGenerated then "AI 생성" else "업로드") + " (내 갤러리)"
  }

  /** Every option offered, duplicates included, in the order offered: the
      category reference, then the sibling images, then the gallery. */
  function CategoryCandidate(ref: Option<string>): seq<RefOption> {
    if Present(ref) then [RefOption(ref.value, "카테고리 레퍼런스")] else []
  }

  function SiblingCandidates(siblings: seq<MenuRow>): seq<RefOption> {
    if siblings == [] then []
    else
      var m := siblings[|siblings| - 1];
      SiblingCandidates(siblings[..|siblings| - 1]) + (if Present(m.imageUrl) then [RefOption(m.imageUrl.value, m.name)] else [])
  }

  function GalleryCandidates(gallery: seq<GalleryImage>): seq<RefOption> {
    if gallery == [] then []
    else
      var img := gallery[|gallery| - 1];
      GalleryCandidates(gallery[..|gallery| - 1]) + [RefOption(img.imageUrl, GalleryLabel(img))]
  }

  function Candidates(ref: Option<string>, siblings: seq<MenuRow>, gallery: seq<GalleryImage>): seq<RefOption> {
    CategoryCandidate(ref) + SiblingCandidates(siblings) + GalleryCandidates(gallery)
  }

  function Urls(os: seq<RefOption>): set<string> {
    set o | o in os :: o.url
  }

  lemma UrlsSnoc(os: seq<RefOption>, c: RefOption)
    ensures Urls(os + [c]) == Urls(os) + {c.url}
  {
    assert forall o :: o in os + [c] <==> o in os || o == c;
  }

  /** Keeps each candidate whose URL has not been offered before. */
  function Dedup(cs: seq<RefOption>): seq<RefOption> {
    if cs == [] then []
    else
      var p := Dedup(cs[..|cs| - 1]);
      if cs[|cs| - 1].url in Urls(p) then p else p + [cs[|cs| - 1]]
  }

  /** Every URL of the candidates is offered, each exactly once. */
  lemma {:induction false} DedupUrls(cs: seq<RefOption>)
    ensures Urls(Dedup(cs)) == Urls(cs)
    ensures forall i, j | 0 <= i < j < |Dedup(cs)| :: Dedup(cs)[i].url != Dedup(cs)[j].url
  {
    if cs != [] {
      var a := cs[..|cs| - 1];
      var c := cs[|cs| - 1];
      assert cs == a + [c];
      DedupUrls(a);
      var p := Dedup(a);
      UrlsSnoc(a, c);
      if c.url !in Urls(p) {
        UrlsSnoc(p, c);
        assert forall i | 0 <= i < |p| :: p[i] in p && p[i].url in Urls(p);
      }
    }
  }

  /** The index of the first candidate with URL u. */
  function FirstIndex(cs: seq<RefOption>, u: string): (k: nat)
    requires u in Urls(cs)
    ensures k < |cs| && cs[k].url == u
    ensures forall j | 0 <= j < k :: cs[j].url != u
  {
    if cs[0].url == u then 0
    else
      assert u in Urls(cs[1..]) by {
        var o :| o in cs && o.url == u;
        assert o != cs[0];
      }
      1 + FirstIndex(cs[1..], u)
  }

  /** The reference options as the page builds them, with a set of the URLs
      already offered. */
  method ReferenceOptions(categories: seq<CategoryRef>, categoryId: Option<int>, siblings: seq<MenuRow>,
                          gallery: seq<GalleryImage>) returns (opts: seq<RefOption>)
    ensures opts == Dedup(Candidates(CategoryRefImage(categories, categoryId), siblings, gallery))
  {
    var ref := CategoryRefImage(categories, categoryId);
    var used: set<string> := {};
    opts := [];
    if ref.Some? {
      opts := [RefOption(ref.value, "카테고리 레퍼런스")];
      used := {ref.value};
    }
    ghost var c := CategoryCandidate(ref);
    assert opts == Dedup(c) && used == Urls(opts) by {
      if ref.Some? {
        assert c == [] + [c[0]];
        assert Urls(opts) == {ref.value};
      }
    }
    opts, used := AddSiblings(opts, used, c, siblings);
    opts := AddGallery(opts, used, c + SiblingCandidates(siblings), gallery);
  }

  method AddSiblings(opts0: seq<RefOption>, used0: set<string>, ghost before: seq<RefOption>, siblings: seq<MenuRow>)
    returns (opts: seq<RefOption>, used: set<string>)
    requires opts0 == Dedup(before) && used0 == Urls(opts0)
    ensures opts == Dedup(before + SiblingCandidates(siblings)) && used == Urls(opts)
  {
    opts, used := opts0, used0;
    var i := 0;
    assert before + SiblingCandidates(siblings[..0]) == before;
    while i < |siblings|
      invariant 0 <= i <= |siblings|
      invariant opts == Dedup(before + SiblingCandidates(siblings[..i])) && used == Urls(opts)
    {
      var m := siblings[i];
      ghost var done := before + SiblingCandidates(siblings[..i]);
      assert siblings[..i + 1][..i] == siblings[..i];
      if m.imageUrl.Some? && m.imageUrl.value != "" {
        var c := RefOption(m.imageUrl.value, m.name);
        assert before + SiblingCandidates(siblings[..i + 1]) == done + [c];
        DedupSnoc(done, c);
        if c.url !in used {
          UrlsSnoc(opts, c);
          opts := opts + [c];
          used := used + {c.url};
        }
      } else {
        assert before + SiblingCandidates(siblings[..i + 1]) == done;
      }
      i := i + 1;
    }
    assert siblings[..i] == siblings;
  }

  method AddGallery(opts0: seq<RefOption>, used0: set<string>, ghost before: seq<RefOption>, gallery: seq<GalleryImage>)
    returns (opts: seq<RefOption>)
    requires opts0 == Dedup(before) && used0 == Urls(opts0)
    ensures opts == Dedup(before + GalleryCandidates(gallery))
  {
    opts := opts0;
    var used := used0;
    var i := 0;
    assert before + GalleryCandidates(gallery[..0]) == before;
    while i < |gallery|
      invariant 0 <= i <= |gallery|
      invariant opts == Dedup(before + GalleryCandidates(gallery[..i])) && used == Urls(opts)
    {
      var img := gallery[i];
      ghost var done := before + GalleryCandidates(gallery[..i]);
      assert gallery[..i + 1][..i] == gallery[..i];
      if img.imageUrl !in used {
        var kind := if img.isAiGenerated then "AI 생성" else "업로드";
        var c := RefOption(img.imageUrl, kind + " (내 갤러리)");
        assert before + GalleryCandidates(gallery[..i + 1]) == done + [c];
        DedupSnoc(done, c);
        UrlsSnoc(opts, c);
        opts := opts + [c];
        used := used + {c.url};
      } else {
        ghost var c := RefOption(img.imageUrl, GalleryLabel(img));
        assert before + GalleryCandidates(gallery[..i + 1]) == done + [c];
        DedupSnoc(done, c);
      }
      i := i + 1;
    }
    assert gallery[..i] == gallery;
  }

  /** One more candidate is kept exactly when its URL is new. */
  lemma DedupSnoc(cs: seq<RefOption>, c: RefOption)
    ensures Dedup(cs + [c]) == if c.url in Urls(Dedup(cs)) then Dedup(cs) else Dedup(cs) + [c]
  {
    assert (cs + [c])[..|cs|] == cs;
  }

  /** The URLs offered are those of the candidates, each once (see Dedup),
      and each URL carries the caption of its first candidate. */
  lemma {:induction false} DedupFirstWins(cs: seq<RefOption>)
    ensures forall k | 0 <= k < |Dedup(cs)| :: Dedup(cs)[k].url in Urls(cs) && Dedup(cs)[k] == cs[FirstIndex(cs, Dedup(cs)[k].url)]
  {
    if cs != [] {
      var a := cs[..|cs| - 1];
      var c := cs[|cs| - 1];
      assert cs == a + [c];
      DedupFirstWins(a);
      DedupUrls(a);
      var p := Dedup(a);
      var r := Dedup(cs);
      assert r == if c.url in Urls(p) then p else p + [c];
      forall k | 0 <= k < |r| ensures r[k].url in Urls(cs) && r[k] == cs[FirstIndex(cs, r[k].url)] {
        if k < |p| {
          assert r[k] == p[k];
          FirstIndexAppend(a, [c], p[k].url);
        } else {
          assert r[k] == c && c.url !in Urls(a);
          FirstIndexSnocNew(a, c);
        }
      }
    }
  }

  /** A URL first offered by the last candidate has that candidate's index. */
  lemma FirstIndexSnocNew(a: seq<RefOption>, c: RefOption)
    requires c.url !in Urls(a)
    ensures c.url in Urls(a + [c]) && FirstIndex(a + [c], c.url) == |a|
  {
    UrlsSnoc(a, c);
    var s := a + [c];
    forall j | 0 <= j < |a| ensures s[j].url != c.url {
      assert s[j] == a[j] && a[j] in a;
    }
  }

  lemma {:induction false} FirstIndexAppend(a: seq<RefOption>, b: seq<RefOption>, u: string)
    requires u in Urls(a)
    ensures u in Urls(a + b) && FirstIndex(a + b, u) == FirstIndex(a, u)
  {
    var o :| o in a && o.url == u;
    assert o in a + b;
    if a[0].url != u {
      assert o != a[0] && o in a[1..];
      assert (a + b)[1..] == a[1..] + b;
      FirstIndexAppend(a[1..], b, u);
    }
  }

  /** Deduplication never reorders: what a prefix of the candidates yields
      is a prefix of the whole result, and everything after it comes from
      the later candidates. */
  lemma {:induction false} DedupPrefix(a: seq<RefOption>, b: seq<RefOption>)
    ensures Dedup(a) <= Dedup(a + b)
    ensures forall k | |Dedup(a)| <= k < |Dedup(a + b)| :: Dedup(a + b)[k] in b
  {
    if b == [] {
      assert a + b == a;
    } else {
      var b0 := b[..|b| - 1];
      var c := b[|b| - 1];
      DedupPrefix(a, b0);
      assert a + b == (a + b0) + [c];
      DedupSnoc(a + b0, c);
    }
  }

  /** The category reference, when set, is offered first; every sibling
      image is offered before any gallery image. */
  lemma ReferenceOrder(ref: Option<string>, siblings: seq<MenuRow>, gallery: seq<GalleryImage>)
    ensures var r := Dedup(Candidates(ref, siblings, gallery));
      Present(ref) ==> |r| > 0 && r[0] == RefOption(ref.value, "카테고리 레퍼런스")
    ensures var r := Dedup(Candidates(ref, siblings, gallery));
      var s := Dedup(CategoryCandidate(ref) + SiblingCandidates(siblings));
      s <= r && forall k | |s| <= k < |r| :: r[k] in GalleryCandidates(gallery)
  {
    var c := CategoryCandidate(ref);
    var s := SiblingCandidates(siblings);
    DedupPrefix(c, s);
    DedupPrefix(c + s, GalleryCandidates(gallery));
    if Present(ref) {
      assert c == [] + [c[0]];
      assert Dedup(c) == [c[0]];
    }
  }

  // ---------------------------------------------------------------------
  // Prompts
  // ---------------------------------------------------------------------

  /** `[name, description].filter(Boolean).join(" - ")`. */
  function DefaultPrompt(name: string, description: string): (r: string)
    ensures name != "" && description != "" ==> r == name + " - " + description
    ensures name == "" ==> r == description
    ensures description == "" ==> r == name
  {
    var parts := (if name != "" then [name] else []) + (if description != "" then [description] else []);
    Join(parts, " - ")
  }

  /** `imagePrompt.trim() || defaultPrompt`; None when generation does not
      start because both are empty. */
  function FinalPrompt(imagePrompt: string, name: string, description: string): (r: Option<string>)
    ensures r.None? <==> IsBlank(imagePrompt) && name == "" && description == ""
    ensures !IsBlank(imagePrompt) ==> r == Some(Trim(imagePrompt))
    ensures r.Some? ==> r.value != ""
  {
    TrimEmptyIffBlank(imagePrompt);
    var p := Trim(imagePrompt);
    if p != "" then Some(p)
    else
      var d := DefaultPrompt(name, description);
      if d == "" then None else Some(d)
  }

  // ---------------------------------------------------------------------
  // Submit
  // ---------------------------------------------------------------------

  /** The menu fields sent to the server; `imageUrl` only when it is set
      and not a local preview. */
  datatype MenuBody = MenuBody(name: string, description: string, price: int, categoryId: int, imageUrl: Option<string>)

  datatype OptionPayload = OptionPayload(name: string, priceModifier: int, sortOrder: nat)

  datatype GroupPayload = GroupPayload(name: string, required: bool, sortOrder: nat, options: seq<OptionPayload>)

  datatype GroupRequest =
    | DeleteGroup(groupId: int)
    | PutGroup(groupId: int, payload: GroupPayload)
    | PostGroup(payload: GroupPayload)

  /** What a submit does: rejected by validation, or the menu write (an
      update when the form edits an existing menu) followed by the group
      requests in order. */
  datatype Submission =
    | Rejected
    | Saved(menu: MenuBody, isUpdate: bool, groups: seq<GroupRequest>)

  /** Submit proceeds only with a category, a name that is not blank and
      a price that is neither absent nor 0. */
  predicate CanSubmit(categoryId: Option<int>, name: string, price: Option<int>) {
    Truthy(categoryId) && Trim(name) != "" && Truthy(price)
  }

  lemma CanSubmitIff(categoryId: Option<int>, name: string, price: Option<int>)
    ensures CanSubmit(categoryId, name, price) <==>
              categoryId.Some? && categoryId.value != 0 && !IsBlank(name) && price.Some? && price.value != 0
  {
    TrimEmptyIffBlank(name);
  }

  predicate IsBlobUrl(u: string) {
    |u| >= 5 && u[..5] == "blob:"
  }

  function MenuBodyOf(name: string, description: string, price: int, categoryId: int, imageUrl: Option<string>): (b: MenuBody)
    ensures b.name == Trim(name) && b.description == description && b.price == price && b.categoryId == categoryId
    ensures b.imageUrl.Some? <==> Present(imageUrl) && !IsBlobUrl(imageUrl.value)
    ensures b.imageUrl.Some? ==> b.imageUrl == imageUrl
  {
    MenuBody(Trim(name), description, price, categoryId,
             if Present(imageUrl) && !IsBlobUrl(imageUrl.value) then imageUrl else None)
  }

  /** `group.options.filter((o) => o.name.trim())`. */
  function ValidOptions(os: seq<OptionInput>): seq<OptionInput> {
    if os == [] then []
    else
      var o := os[|os| - 1];
      ValidOptions(os[..|os| - 1]) + (if IsBlank(o.name) then [] else [o])
  }

  /** The options kept are exactly those whose name is not blank, in order. */
  lemma {:induction false} ValidOptionsMembers(os: seq<OptionInput>)
    ensures |ValidOptions(os)| <= |os|
    ensures forall o :: o in ValidOptions(os) <==> o in os && !IsBlank(o.name)
  {
    if os != [] {
      var o := os[|os| - 1];
      assert os == os[..|os| - 1] + [o];
      ValidOptionsMembers(os[..|os| - 1]);
    }
  }

  /** The kept options with trimmed names, numbered from 0. */
  function OptionPayloads(vs: seq<OptionInput>): (r: seq<OptionPayload>)
    ensures |r| == |vs|
  {
    if vs == [] then []
    else
      var o := vs[|vs| - 1];
      OptionPayloads(vs[..|vs| - 1]) + [OptionPayload(Trim(o.name), o.priceModifier, |vs| - 1)]
  }

  lemma {:induction false} OptionPayloadsIndex(vs: seq<OptionInput>)
    ensures forall k | 0 <= k < |vs| :: OptionPayloads(vs)[k] == OptionPayload(Trim(vs[k].name), vs[k].priceModifier, k)
  {
    if vs != [] {
      OptionPayloadsIndex(vs[..|vs| - 1]);
    }
  }

  function Payload(g: GroupInput, i: nat): GroupPayload {
    GroupPayload(Trim(g.name), g.required, i, OptionPayloads(ValidOptions(g.options)))
  }

  /** In an edit a group with an id is updated and any other is created; a
      new menu creates every group. */
  function RequestFor(g: GroupInput, i: nat, isEdit: bool): GroupRequest {
    if isEdit && HasId(g) then PutGroup(g.id.value, Payload(g, i)) else PostGroup(Payload(g, i))
  }

  /** One request per group whose name is not blank, in form order, with the
      group's form index as its sort order. */
  function GroupRequests(gs: seq<GroupInput>, isEdit: bool): seq<GroupRequest> {
    if gs == [] then []
    else
      var g := gs[|gs| - 1];
      GroupRequests(gs[..|gs| - 1], isEdit) + (if IsBlank(g.name) then [] else [RequestFor(g, |gs| - 1, isEdit)])
  }

  /** The indices of the groups whose name is not blank, ascending. */
  function NonBlankIndices(gs: seq<GroupInput>): (ix: seq<nat>)
    ensures forall k | 0 <= k < |ix| :: ix[k] < |gs| && !IsBlank(gs[ix[k]].name)
    ensures forall i | 0 <= i < |gs| :: !IsBlank(gs[i].name) ==> i in ix
    ensures forall k, l | 0 <= k < l < |ix| :: ix[k] < ix[l]
  {
    if gs == [] then []
    else
      var p := NonBlankIndices(gs[..|gs| - 1]);
      if IsBlank(gs[|gs| - 1].name) then p else p + [|gs| - 1]
  }

  /** Ids of the form's groups that exist on the server. */
  function FormIds(gs: seq<GroupInput>): set<int> {
    set g | g in gs && HasId(g) :: g.id.value
  }

  /** A delete for every server group whose id the form no longer holds. */
  function Deletions(serverIds: seq<int>, gs: seq<GroupInput>): (r: seq<GroupRequest>)
    ensures forall k | 0 <= k < |r| :: r[k].DeleteGroup?
    ensures forall id :: DeleteGroup(id) in r <==> id in serverIds && id !in FormIds(gs)
  {
    if serverIds == [] then []
    else
      var id := serverIds[|serverIds| - 1];
      assert serverIds == serverIds[..|serverIds| - 1] + [id];
      Deletions(serverIds[..|serverIds| - 1], gs) + (if id in FormIds(gs) then [] else [DeleteGroup(id)])
  }

  /** The option-group requests of a submit: none unless the server
      returned a menu id; in an edit, the deletions first. */
  function GroupPlan(isEdit: bool, savedMenuId: Option<int>, gs: seq<GroupInput>, serverIds: seq<int>): seq<GroupRequest> {
    if isEdit && Truthy(savedMenuId) then Deletions(serverIds, gs) + GroupRequests(gs, true)
    else if Truthy(savedMenuId) then GroupRequests(gs, false)
    else []
  }

  // ---------------------------------------------------------------------
  // The page
  // ---------------------------------------------------------------------

  class Form {
    var menuId: Option<int>
    var categoryId: Option<int>
    var name: string
    var description: string
    var price: Option<int>
    var imageUrl: Option<string>
    var groups: seq<GroupInput>

    /** The form of a new menu (no id, nothing loaded) or of a loaded one. */
    constructor (menuId: Option<int>, categoryId: Option<int>, name: string, description: string,
                 price: Option<int>, imageUrl: Option<string>, groups: seq<GroupInput>)
      ensures this.menuId == menuId && this.categoryId == categoryId && this.name == name
      ensures this.description == description && this.price == price && this.imageUrl == imageUrl
      ensures this.groups == groups
    {
      this.menuId, this.categoryId, this.name, this.description := menuId, categoryId, name, description;
      this.price, this.imageUrl, this.groups := price, imageUrl, groups;
    }

    /** `addOptionGroup`: a blank group with one blank option is appended. */
    method AddOptionGroup()
      modifies this
      ensures groups == old(groups) + [BlankGroup]
      ensures menuId == old(menuId) && categoryId == old(categoryId) && name == old(name)
      ensures description == old(description) && price == old(price) && imageUrl == old(imageUrl)
    {
      groups := groups + [BlankGroup];
    }

    /** `removeOptionGroup`: the group at idx, if any, is dropped; the
        others keep their order. */
    method RemoveOptionGroup(idx: int)
      modifies this
      ensures groups == RemoveAt(old(groups), idx)
      ensures menuId == old(menuId) && categoryId == old(categoryId) && name == old(name)
      ensures description == old(description) && price == old(price) && imageUrl == old(imageUrl)
    {
      groups := RemoveAt(groups, idx);
    }

    /** `updateGroup`: one field of one group is set. */
    method UpdateGroup(idx: nat, edit: GroupEdit)
      requires idx < |groups|
      modifies this
      ensures |groups| == |old(groups)|
      ensures forall j | 0 <= j < |groups| && j != idx :: groups[j] == old(groups)[j]
      ensures edit.GroupName? ==> groups[idx] == old(groups)[idx].(name := edit.name)
      ensures edit.GroupRequired? ==> groups[idx] == old(groups)[idx].(required := edit.required)
      ensures menuId == old(menuId) && categoryId == old(categoryId) && name == old(name)
      ensures description == old(description) && price == old(price) && imageUrl == old(imageUrl)
    {
      var g := groups[idx];
      match edit {
        case GroupName(n) => g := g.(name := n);
        case GroupRequired(b) => g := g.(required := b);
      }
      groups := groups[idx := g];
    }

    /** `addOption`: a blank option is appended to one group. */
    method AddOption(groupIdx: nat)
      requires groupIdx < |groups|
      modifies this
      ensures |groups| == |old(groups)|
      ensures forall j | 0 <= j < |groups| && j != groupIdx :: groups[j] == old(groups)[j]
      ensures groups[groupIdx] == old(groups)[groupIdx].(options := old(groups)[groupIdx].options + [BlankOption])
      ensures menuId == old(menuId) && categoryId == old(categoryId) && name == old(name)
      ensures description == old(description) && price == old(price) && imageUrl == old(imageUrl)
    {
      var g := groups[groupIdx];
      g := g.(options := g.options + [BlankOption]);
      groups := groups[groupIdx := g];
    }

    /** `removeOption`: the option at optIdx of one group, if any, is
        dropped. */
    method RemoveOption(groupIdx: nat, optIdx: int)
      requires groupIdx < |groups|
      modifies this
      ensures |groups| == |old(groups)|
      ensures forall j | 0 <= j < |groups| && j != groupIdx :: groups[j] == old(groups)[j]
      ensures groups[groupIdx] == old(groups)[groupIdx].(options := RemoveAt(old(groups)[groupIdx].options, optIdx))
      ensures menuId == old(menuId) && categoryId == old(categoryId) && name == old(name)
      ensures description == old(description) && price == old(price) && imageUrl == old(imageUrl)
    {
      var g := groups[groupIdx];
      g := g.(options := RemoveAt(g.options, optIdx));
      groups := groups[groupIdx := g];
    }

    /** `updateOption`: one field of one option of one group is set. */
    method UpdateOption(groupIdx: nat, optIdx: nat, edit: OptionEdit)
      requires groupIdx < |groups| && optIdx < |groups[groupIdx].options|
      modifies this
      ensures |groups| == |old(groups)|
      ensures forall j | 0 <= j < |groups| && j != groupIdx :: groups[j] == old(groups)[j]
      ensures groups[groupIdx].id == old(groups)[groupIdx].id && groups[groupIdx].name == old(groups)[groupIdx].name
      ensures groups[groupIdx].required == old(groups)[groupIdx].required
      ensures |groups[groupIdx].options| == |old(groups)[groupIdx].options|
      ensures forall k | 0 <= k < |groups[groupIdx].options| && k != optIdx ::
                groups[groupIdx].options[k] == old(groups)[groupIdx].options[k]
      ensures edit.OptionName? ==> groups[groupIdx].options[optIdx] == old(groups)[groupIdx].options[optIdx].(name := edit.name)
      ensures edit.OptionPrice? ==>
                groups[groupIdx].options[optIdx] == old(groups)[groupIdx].options[optIdx].(priceModifier := edit.priceModifier)
      ensures menuId == old(menuId) && categoryId == old(categoryId) && name == old(name)
      ensures description == old(description) && price == old(price) && imageUrl == old(imageUrl)
    {
      var g := groups[groupIdx];
      var o := g.options[optIdx];
      match edit {
        case OptionName(n) => o := o.(name := n);
        case OptionPrice(p) => o := o.(priceModifier := p);
      }
      g := g.(options := g.options[optIdx := o]);
      groups := groups[groupIdx := g];
    }

    /** `handleSubmit`, given the id the menu write returned and the ids of
        the groups the server holds for the menu. */
    method Submit(savedMenuId: Option<int>, serverGroupIds: seq<int>) returns (s: Submission)
      ensures s.Rejected? <==> !CanSubmit(categoryId, name, price)
      ensures s.Saved? ==> s.menu == MenuBodyOf(name, description, price.value, categoryId.value, imageUrl)
      ensures s.Saved? ==> s.isUpdate == Truthy(menuId)
      ensures s.Saved? ==> s.groups == GroupPlan(Truthy(menuId), savedMenuId, groups, serverGroupIds)
    {
      if categoryId.None? || categoryId.value == 0 || Trim(name) == "" || price.None? || price.value == 0 {
        return Rejected;
      }
      var body := MenuBody(Trim(name), description, price.value, categoryId.value,
                           if imageUrl.Some? && imageUrl.value != "" && !IsBlobUrl(imageUrl.value) then imageUrl else None);
      var isEdit := menuId.Some? && menuId.value != 0;
      var requests: seq<GroupRequest> := [];
      if isEdit && savedMenuId.Some? && savedMenuId.value != 0 {
        requests := DeleteMissing(serverGroupIds, groups);
        var writes := WriteGroups(groups, true);
        requests := requests + writes;
      } else if savedMenuId.Some? && savedMenuId.value != 0 {
        requests := WriteGroups(groups, false);
      }
      s := Saved(body, isEdit, requests);
    }
  }

  /** The deletion loop of a submit. */
  method DeleteMissing(serverIds: seq<int>, gs: seq<GroupInput>) returns (r: seq<GroupRequest>)
    ensures r == Deletions(serverIds, gs)
  {
    var keep: set<int> := {};
    var j := 0;
    while j < |gs|
      invariant 0 <= j <= |gs|
      invariant keep == FormIds(gs[..j])
    {
      assert gs[..j + 1] == gs[..j] + [gs[j]];
      if gs[j].id.Some? && gs[j].id.value != 0 {
        keep := keep + {gs[j].id.value};
      }
      j := j + 1;
    }
    assert gs[..j] == gs;
    r := [];
    var i := 0;
    while i < |serverIds|
      invariant 0 <= i <= |serverIds|
      invariant r == Deletions(serverIds[..i], gs)
    {
      assert serverIds[..i + 1][..i] == serverIds[..i];
      if serverIds[i] !in keep {
        r := r + [DeleteGroup(serverIds[i])];
      }
      i := i + 1;
    }
    assert serverIds[..i] == serverIds;
  }

  /** The group loop of a submit: blank groups are skipped with `continue`. */
  method WriteGroups(gs: seq<GroupInput>, isEdit: bool) returns (r: seq<GroupRequest>)
    ensures r == GroupRequests(gs, isEdit)
  {
    r := [];
    var i := 0;
    while i < |gs|
      invariant 0 <= i <= |gs|
      invariant r == GroupRequests(gs[..i], isEdit)
    {
      GroupRequestsSnoc(gs, i, isEdit);
      var g := gs[i];
      TrimEmptyIffBlank(g.name);
      if Trim(g.name) == "" {
        i := i + 1;
        continue;
      }
      var request := WriteGroup(g, i, isEdit);
      r := r + [request];
      i := i + 1;
    }
    assert gs[..i] == gs;
  }

  lemma GroupRequestsSnoc(gs: seq<GroupInput>, i: nat, isEdit: bool)
    requires i < |gs|
    ensures GroupRequests(gs[..i + 1], isEdit) ==
              GroupRequests(gs[..i], isEdit) + (if IsBlank(gs[i].name) then [] else [RequestFor(gs[i], i, isEdit)])
  {
    assert gs[..i + 1][..i] == gs[..i];
  }

  /** The PUT or POST of one group whose name is not blank. */
  method WriteGroup(g: GroupInput, i: nat, isEdit: bool) returns (request: GroupRequest)
    ensures request == RequestFor(g, i, isEdit)
  {
    var options := ValidOptionsLoop(g.options);
    var payload := GroupPayload(Trim(g.name), g.required, i, options);
    if isEdit && g.id.Some? && g.id.value != 0 {
      request := PutGroup(g.id.value, payload);
    } else {
      request := PostGroup(payload);
    }
  }

  lemma ValidOptionsSnoc(os: seq<OptionInput>, i: nat)
    requires i < |os|
    ensures ValidOptions(os[..i + 1]) == ValidOptions(os[..i]) + (if IsBlank(os[i].name) then [] else [os[i]])
  {
    assert os[..i + 1][..i] == os[..i];
  }

  lemma OptionPayloadsSnoc(vs: seq<OptionInput>, o: OptionInput)
    ensures OptionPayloads(vs + [o]) == OptionPayloads(vs) + [OptionPayload(Trim(o.name), o.priceModifier, |vs|)]
  {
    assert (vs + [o])[..|vs|] == vs;
  }

  /** `validOptions.map((o, oi) => ...)` over the filtered options. */
  method ValidOptionsLoop(os: seq<OptionInput>) returns (r: seq<OptionPayload>)
    ensures r == OptionPayloads(ValidOptions(os))
  {
    r := [];
    var i := 0;
    while i < |os|
      invariant 0 <= i <= |os|
      invariant r == OptionPayloads(ValidOptions(os[..i]))
    {
      ValidOptionsSnoc(os, i);
      r := KeepOption(r, ValidOptions(os[..i]), os[i]);
      i := i + 1;
    }
    assert os[..i] == os;
  }

  /** One step of the option loop: an option with a non-blank name gets the
      next index; a blank one is dropped. */
  method KeepOption(r: seq<OptionPayload>, ghost v: seq<OptionInput>, o: OptionInput) returns (r': seq<OptionPayload>)
    requires r == OptionPayloads(v)
    ensures r' == OptionPayloads(v + (if IsBlank(o.name) then [] else [o]))
  {
    TrimEmptyIffBlank(o.name);
    if Trim(o.name) != "" {
      OptionPayloadsSnoc(v, o);
      r' := r + [OptionPayload(Trim(o.name), o.priceModifier, |r|)];
    } else {
      assert v + [] == v;
      r' := r;
    }
  }

  // ---------------------------------------------------------------------
  // Properties
  // ---------------------------------------------------------------------

  /** Group requests correspond one to one, in order, to the groups whose
      name is not blank; each carries its group's form index as sort order. */
  lemma {:induction false} GroupRequestsByIndex(gs: seq<GroupInput>, isEdit: bool)
    ensures |GroupRequests(gs, isEdit)| == |NonBlankIndices(gs)|
    ensures forall k | 0 <= k < |NonBlankIndices(gs)| ::
              GroupRequests(gs, isEdit)[k] == RequestFor(gs[NonBlankIndices(gs)[k]], NonBlankIndices(gs)[k], isEdit)
  {
    if gs != [] {
      var a := gs[..|gs| - 1];
      var last := gs[|gs| - 1];
      GroupRequestsByIndex(a, isEdit);
      var ra, ia := GroupRequests(a, isEdit), NonBlankIndices(a);
      var rs, ix := GroupRequests(gs, isEdit), NonBlankIndices(gs);
      assert rs == ra + (if IsBlank(last.name) then [] else [RequestFor(last, |gs| - 1, isEdit)]);
      assert ix == ia + (if IsBlank(last.name) then [] else [|gs| - 1]);
      forall k | 0 <= k < |ix|
        ensures rs[k] == RequestFor(gs[ix[k]], ix[k], isEdit)
      {
        if k < |ia| {
          assert ix[k] == ia[k] && rs[k] == ra[k];
          assert gs[ia[k]] == a[ia[k]];
        }
      }
    }
  }

  /** Every payload sent is well formed: a trimmed, non-empty group name;
      option names trimmed and non-empty; options numbered 0, 1, 2, ... in
      the order of the options kept. */
  lemma PayloadShape(g: GroupInput, i: nat)
    requires !IsBlank(g.name)
    ensures var p := Payload(g, i);
      && p.name != "" && p.name == Trim(g.name) && p.sortOrder == i && p.required == g.required
      && |p.options| == |ValidOptions(g.options)|
      && forall k | 0 <= k < |p.options| ::
           p.options[k].sortOrder == k && p.options[k].name != ""
           && p.options[k].name == Trim(ValidOptions(g.options)[k].name)
           && p.options[k].priceModifier == ValidOptions(g.options)[k].priceModifier
  {
    TrimEmptyIffBlank(g.name);
    var vs := ValidOptions(g.options);
    ValidOptionsMembers(g.options);
    OptionPayloadsIndex(vs);
    forall k | 0 <= k < |vs|
      ensures Trim(vs[k].name) != ""
    {
      assert vs[k] in vs;
      TrimEmptyIffBlank(vs[k].name);
    }
  }

  /** In an edit, a form group with an id is updated in place and never
      deleted; a server group the form dropped is deleted. */
  lemma KeptGroupsNotDeleted(savedMenuId: Option<int>, gs: seq<GroupInput>, serverIds: seq<int>, i: nat)
    requires Truthy(savedMenuId) && i < |gs| && HasId(gs[i])
    ensures DeleteGroup(gs[i].id.value) !in GroupPlan(true, savedMenuId, gs, serverIds)
  {
    var x := gs[i].id.value;
    assert gs[i] in gs;
    assert x in FormIds(gs);
    var w := GroupRequests(gs, true);
    GroupRequestsByIndex(gs, true);
    assert forall k | 0 <= k < |w| :: !w[k].DeleteGroup?;
    assert DeleteGroup(x) !in w;
  }

  /** Appending a blank group in the editor changes nothing that a submit
      sends: blank groups are skipped. */
  lemma AddedGroupNotSent(gs: seq<GroupInput>, isEdit: bool)
    ensures GroupRequests(gs + [BlankGroup], isEdit) == GroupRequests(gs, isEdit)
  {
    assert (gs + [BlankGroup])[..|gs|] == gs;
    assert IsBlank(BlankGroup.name);
  }

  /** Appending a blank option to a group changes nothing in its payload:
      blank options are dropped. */
  lemma AddedOptionNotSent(g: GroupInput, i: nat)
    ensures Payload(g.(options := g.options + [BlankOption]), i) == Payload(g, i)
  {
    var os := g.options + [BlankOption];
    assert os[..|os| - 1] == g.options;
    assert IsBlank(os[|os| - 1].name);
    assert ValidOptions(os) == ValidOptions(g.options);
  }

  /** Filtering distributes over concatenation. */
  lemma {:induction false} ValidOptionsAppend(a: seq<OptionInput>, b: seq<OptionInput>)
    ensures ValidOptions(a + b) == ValidOptions(a) + ValidOptions(b)
  {
    if b == [] {
      assert a + b == a;
    } else {
      var b0 := b[..|b| - 1];
      ValidOptionsAppend(a, b0);
      assert (a + b)[..|a + b| - 1] == a + b0;
    }
  }

  /** Removing an option whose name is blank changes nothing in its
      group's payload. */
  lemma {:induction false} RemoveBlankOption(os: seq<OptionInput>, k: nat)
    requires k < |os| && IsBlank(os[k].name)
    ensures ValidOptions(RemoveAt(os, k)) == ValidOptions(os)
  {
    var pre, post := os[..k], os[k + 1..];
    assert RemoveAt(os, k) == pre + post;
    assert os == pre + ([os[k]] + post);
    assert ValidOptions([os[k]]) == [] by {
      assert [os[k]][..0] == [];
    }
    ValidOptionsAppend([os[k]], post);
    assert ValidOptions([os[k]] + post) == ValidOptions(post);
    ValidOptionsAppend(pre, [os[k]] + post);
    ValidOptionsAppend(pre, post);
  }
}
