/** The category administration page: adding and renaming categories,
    reordering them by drag and drop with their sort orders renumbered, and
    the reference image of the category whose gallery is open. The page's
    state is a class; the requests it sends to the server are returned in
    order, and the list the server sends back afterwards is not modelled. */
module CategoryManager {
  import opened Base

  /** The page's view of a category. */
  datatype CategoryRow = CategoryRow(id: int, name: string, sortOrder: int, isActive: bool, referenceImageUrl: Option<string>)

  datatype GalleryImage = GalleryImage(id: int, categoryId: int, imageUrl: string)

  datatype Request =
    | CreateCategory(name: string, sortOrder: int)
    | RenameCategory(id: int, name: string)
    | SetSortOrder(id: int, sortOrder: int)
    | SelectImage(categoryId: int, imageId: int)
    | DeleteImage(categoryId: int, imageId: int)

  /** `categories.reduce((max, c) => Math.max(max, c.sortOrder), -1) + 1`. */
  function NextSortOrder(cats: seq<CategoryRow>): (r: int)
    ensures r >= 0
    ensures forall i | 0 <= i < |cats| :: cats[i].sortOrder < r
    ensures cats == [] ==> r == 0
    ensures cats != [] && r > 0 ==> exists i | 0 <= i < |cats| :: cats[i].sortOrder == r - 1
  {
    if cats == [] then 0
    else
      var init := cats[..|cats| - 1];
      var prev := NextSortOrder(init);
      var s := cats[|cats| - 1].sortOrder;
      assert forall i | 0 <= i < |init| :: cats[i] == init[i];
      if s + 1 > prev then s + 1 else prev
  }

  /** `arr.splice(k, 0, x)` for k within the array. */
  function Insert<T>(xs: seq<T>, k: nat, x: T): (r: seq<T>)
    requires k <= |xs|
    ensures |r| == |xs| + 1 && r[k] == x
    ensures forall i | 0 <= i < k :: r[i] == xs[i]
    ensures forall i | k < i < |r| :: r[i] == xs[i - 1]
  {
    xs[..k] + [x] + xs[k..]
  }

  /** The drag-and-drop reorder: the element at `from` is taken out and put
      back at `to`; the others keep their relative order. */
  function Move<T>(xs: seq<T>, from: nat, to: nat): (r: seq<T>)
    requires from < |xs| && to < |xs|
    ensures |r| == |xs|
    ensures r[to] == xs[from]
  {
    Insert(RemoveAt(xs, from), to, xs[from])
  }

  /** `reordered.map((cat, i) => ({ ...cat, sortOrder: i }))`. */
  function Renumber(cats: seq<CategoryRow>): (r: seq<CategoryRow>)
    ensures |r| == |cats|
    ensures forall i | 0 <= i < |cats| :: r[i] == cats[i].(sortOrder := i)
  {
    seq(|cats|, i requires 0 <= i < |cats| => cats[i].(sortOrder := i))
  }

  /** The two `splice` calls of `handleDragEnd` perform Move. */
  lemma SpliceIsMove<T>(xs: seq<T>, from: nat, to: nat)
    requires from < |xs| && to < |xs|
    ensures var rest := xs[..from] + xs[from + 1..];
            rest[..to] + [xs[from]] + rest[to..] == Move(xs, from, to)
  {
  }

  /** One sort-order update per category, in list order. */
  function SortOrderRequests(cats: seq<CategoryRow>): (r: seq<Request>)
    ensures |r| == |cats|
    ensures forall i | 0 <= i < |cats| :: r[i] == SetSortOrder(cats[i].id, cats[i].sortOrder)
  {
    seq(|cats|, i requires 0 <= i < |cats| => SetSortOrder(cats[i].id, cats[i].sortOrder))
  }

  /** The splicing and renumbering of `handleDragEnd`. */
  method Reorder(categories: seq<CategoryRow>, from: nat, to: nat) returns (updated: seq<CategoryRow>)
    requires from < |categories| && to < |categories|
    ensures updated == Renumber(Move(categories, from, to))
  {
    var reordered := categories;
    var removed := reordered[from];
    reordered := reordered[..from] + reordered[from + 1..];
    reordered := reordered[..to] + [removed] + reordered[to..];
    SpliceIsMove(categories, from, to);
    updated := Renumber(reordered);
  }

  /** The persisting loop of `handleDragEnd`: one update per row. */
  method PersistSortOrders(updated: seq<CategoryRow>) returns (sent: seq<Request>)
    ensures sent == SortOrderRequests(updated)
  {
    sent := [];
    for i := 0 to |updated|
      invariant sent == SortOrderRequests(updated[..i])
    {
      sent := sent + [SetSortOrder(updated[i].id, updated[i].sortOrder)];
    }
    assert updated[..|updated|] == updated;
  }

  /** A drop reorders only when both indices are set and differ. */
  predicate Reorders(item: Option<nat>, over: Option<nat>) {
    item.Some? && over.Some? && item != over
  }

  /** `after` is `before` with row `from` moved to index `to` and renumbered,
      and `sent` is one sort-order update per row of `after`, in order. */
  predicate Dropped(before: seq<CategoryRow>, from: nat, to: nat, after: seq<CategoryRow>, sent: seq<Request>)
    requires from < |before| && to < |before|
  {
    after == Renumber(Move(before, from, to)) && sent == SortOrderRequests(after)
  }

  /** The reorder and the updates it sends, for a drop on another row. */
  method DropRow(categories: seq<CategoryRow>, from: nat, to: nat) returns (updated: seq<CategoryRow>, sent: seq<Request>)
    requires from < |categories| && to < |categories|
    ensures updated == Renumber(Move(categories, from, to))
    ensures sent == SortOrderRequests(updated)
    ensures Dropped(categories, from, to, updated, sent)
  {
    updated := Reorder(categories, from, to);
    sent := PersistSortOrders(updated);
  }

  class Page {
    var categories: seq<CategoryRow>
    var newName: string
    var editingId: Option<int>
    var editName: string
    var galleryCategory: Option<CategoryRow>
    var dragItem: Option<nat>
    var dragOverItem: Option<nat>
    var dragIdx: Option<nat>

    /** The drag indices name rows of the list. */
    ghost predicate Valid()
      reads this
    {
      && (dragItem.Some? ==> dragItem.value < |categories|)
      && (dragOverItem.Some? ==> dragOverItem.value < |categories|)
    }

    constructor (fetched: seq<CategoryRow>)
      ensures Valid() && categories == fetched
      ensures newName == "" && editingId.None? && editName == "" && galleryCategory.None?
      ensures dragItem.None? && dragOverItem.None? && dragIdx.None?
    {
      categories := fetched;
      newName, editingId, editName, galleryCategory := "", None, "", None;
      dragItem, dragOverItem, dragIdx := None, None, None;
    }

    /** `addCategory`: a blank name sends nothing; otherwise the trimmed name
        is created after every existing sort order and the input is cleared. */
    method AddCategory() returns (sent: seq<Request>)
      requires Valid()
      modifies this
      ensures Valid()
      ensures IsBlank(old(newName)) ==> sent == [] && newName == old(newName)
      ensures !IsBlank(old(newName)) ==>
                sent == [CreateCategory(Trim(old(newName)), NextSortOrder(old(categories)))] && newName == ""
      ensures categories == old(categories) && editingId == old(editingId) && editName == old(editName)
      ensures galleryCategory == old(galleryCategory)
      ensures dragItem == old(dragItem) && dragOverItem == old(dragOverItem) && dragIdx == old(dragIdx)
    {
      TrimEmptyIffBlank(newName);
      if Trim(newName) == "" {
        return [];
      }
      var maxSort := NextSortOrder(categories) - 1;
      sent := [CreateCategory(Trim(newName), maxSort + 1)];
      newName := "";
    }

    method StartEdit(cat: CategoryRow)
      requires Valid()
      modifies this
      ensures Valid() && editingId == Some(cat.id) && editName == cat.name
      ensures categories == old(categories) && newName == old(newName) && galleryCategory == old(galleryCategory)
      ensures dragItem == old(dragItem) && dragOverItem == old(dragOverItem) && dragIdx == old(dragIdx)
    {
      editingId := Some(cat.id);
      editName := cat.name;
    }

    /** `saveEdit`: nothing without a category being edited or with a blank
        name; otherwise the trimmed name is sent and editing ends. */
    method SaveEdit() returns (sent: seq<Request>)
      requires Valid()
      modifies this
      ensures Valid()
      ensures IsBlank(old(editName)) || old(editingId).None? ==> sent == [] && editingId == old(editingId)
      ensures !IsBlank(old(editName)) && old(editingId).Some? ==>
                sent == [RenameCategory(old(editingId).value, Trim(old(editName)))] && editingId.None?
      ensures categories == old(categories) && newName == old(newName) && editName == old(editName)
      ensures galleryCategory == old(galleryCategory)
      ensures dragItem == old(dragItem) && dragOverItem == old(dragOverItem) && dragIdx == old(dragIdx)
    {
      TrimEmptyIffBlank(editName);
      if Trim(editName) == "" || editingId.None? {
        return [];
      }
      sent := [RenameCategory(editingId.value, Trim(editName))];
      editingId := None;
    }

    method OpenGallery(cat: CategoryRow)
      requires Valid()
      modifies this
      ensures Valid() && galleryCategory == Some(cat)
      ensures categories == old(categories) && newName == old(newName)
      ensures editingId == old(editingId) && editName == old(editName)
      ensures dragItem == old(dragItem) && dragOverItem == old(dragOverItem) && dragIdx == old(dragIdx)
    {
      galleryCategory := Some(cat);
    }

    /** `selectGalleryImage`: with a gallery open, one PUT stores the chosen
        image as the category's reference and the open category shows it;
        with none open nothing happens. */
    method SelectGalleryImage(img: GalleryImage) returns (sent: seq<Request>)
      requires Valid()
      modifies this
      ensures Valid()
      ensures old(galleryCategory).None? ==> sent == [] && galleryCategory == old(galleryCategory)
      ensures old(galleryCategory).Some? ==>
                && sent == [SelectImage(old(galleryCategory).value.id, img.id)]
                && galleryCategory == Some(old(galleryCategory).value.(referenceImageUrl := Some(img.imageUrl)))
      ensures categories == old(categories) && newName == old(newName)
      ensures editingId == old(editingId) && editName == old(editName)
      ensures dragItem == old(dragItem) && dragOverItem == old(dragOverItem) && dragIdx == old(dragIdx)
    {
      if galleryCategory.None? {
        return [];
      }
      var g := galleryCategory.value;
      sent := [SelectImage(g.id, img.id)];
      galleryCategory := Some(g.(referenceImageUrl := Some(img.imageUrl)));
    }

    /** `deleteGalleryImage`: deleting the current reference image clears
        the open category's reference; any other image leaves it. */
    method DeleteGalleryImage(img: GalleryImage) returns (sent: seq<Request>)
      requires Valid()
      modifies this
      ensures Valid()
      ensures old(galleryCategory).None? ==> sent == [] && galleryCategory.None?
      ensures old(galleryCategory).Some? ==>
                var g := old(galleryCategory).value;
                && sent == [DeleteImage(g.id, img.id)]
                && galleryCategory == Some(if g.referenceImageUrl == Some(img.imageUrl) then g.(referenceImageUrl := None) else g)
      ensures categories == old(categories) && newName == old(newName)
      ensures editingId == old(editingId) && editName == old(editName)
      ensures dragItem == old(dragItem) && dragOverItem == old(dragOverItem) && dragIdx == old(dragIdx)
    {
      if galleryCategory.None? {
        return [];
      }
      var g := galleryCategory.value;
      sent := [DeleteImage(g.id, img.id)];
      if g.referenceImageUrl == Some(img.imageUrl) {
        galleryCategory := Some(g.(referenceImageUrl := None));
      }
    }

    method HandleDragStart(idx: nat)
      requires Valid() && idx < |categories|
      modifies this
      ensures Valid() && dragItem == Some(idx) && dragIdx == Some(idx)
      ensures categories == old(categories) && dragOverItem == old(dragOverItem)
      ensures newName == old(newName) && editingId == old(editingId) && editName == old(editName)
      ensures galleryCategory == old(galleryCategory)
    {
      dragItem := Some(idx);
      dragIdx := Some(idx);
    }

    method HandleDragEnter(idx: nat)
      requires Valid() && idx < |categories|
      modifies this
      ensures Valid() && dragOverItem == Some(idx)
      ensures categories == old(categories) && dragItem == old(dragItem) && dragIdx == old(dragIdx)
      ensures newName == old(newName) && editingId == old(editingId) && editName == old(editName)
      ensures galleryCategory == old(galleryCategory)
    {
      dragOverItem := Some(idx);
    }

    /** The reordering half of `handleDragEnd`. */
    method Drop() returns (sent: seq<Request>)
      requires Valid() && Reorders(dragItem, dragOverItem)
      modifies this
      ensures Dropped(old(categories), old(dragItem).value, old(dragOverItem).value, categories, sent)
      ensures dragItem.None? && dragOverItem.None? && dragIdx.None?
      ensures unchanged(this`newName, this`editingId, this`editName, this`galleryCategory)
    {
      var rows, from, to := categories, dragItem.value, dragOverItem.value;
      var updated;
      updated, sent := DropRow(rows, from, to);
      categories := updated;
      dragIdx, dragItem, dragOverItem := None, None, None;
    }

    /** `handleDragEnd`: without two distinct indices only the highlight is
        cleared; otherwise the dragged row moves to the target index, every
        row's sort order becomes its new index, and one update per row is
        sent in the new order. */
    method HandleDragEnd() returns (sent: seq<Request>)
      requires Valid()
      modifies this
      ensures Valid() && dragIdx.None?
      ensures !Reorders(old(dragItem), old(dragOverItem)) ==>
                && sent == [] && categories == old(categories)
                && dragItem == old(dragItem) && dragOverItem == old(dragOverItem)
      ensures Reorders(old(dragItem), old(dragOverItem)) ==>
                && categories == Renumber(Move(old(categories), old(dragItem).value, old(dragOverItem).value))
                && sent == SortOrderRequests(categories)
                && dragItem.None? && dragOverItem.None?
      ensures unchanged(this`newName, this`editingId, this`editName, this`galleryCategory)
    {
      if !Reorders(dragItem, dragOverItem) {
        dragIdx := None;
        sent := [];
      } else {
        sent := Drop();
      }
    }
  }

  // ---------------------------------------------------------------------
  // Properties
  // ---------------------------------------------------------------------

  /** The reorder is a permutation: no row is lost or duplicated. */
  lemma MovePermutes<T>(xs: seq<T>, from: nat, to: nat)
    requires from < |xs| && to < |xs|
    ensures multiset(Move(xs, from, to)) == multiset(xs)
  {
    var x := xs[from];
    var rest := RemoveAt(xs, from);
    assert xs == xs[..from] + [x] + xs[from + 1..];
    assert rest == xs[..from] + xs[from + 1..];
    assert multiset(xs) == multiset(rest) + multiset{x};
    assert Move(xs, from, to) == rest[..to] + [x] + rest[to..];
    assert rest == rest[..to] + rest[to..];
    assert multiset(Move(xs, from, to)) == multiset(rest[..to]) + multiset{x} + multiset(rest[to..]);
  }

  /** Taking the moved row out again leaves the other rows exactly as they
      were, in their original relative order. */
  lemma MoveKeepsOthers<T>(xs: seq<T>, from: nat, to: nat)
    requires from < |xs| && to < |xs|
    ensures RemoveAt(Move(xs, from, to), to) == RemoveAt(xs, from)
  {
    var r := Move(xs, from, to);
    assert RemoveAt(r, to) == RemoveAt(xs, from);
  }

  /** Position by position: rows between the two indices shift by one
      towards the vacated place, all others stay. */
  lemma MoveIndex<T>(xs: seq<T>, from: nat, to: nat, k: nat)
    requires from < |xs| && to < |xs| && k < |xs|
    ensures Move(xs, from, to)[k] ==
              if k == to then xs[from]
              else if from < to && from <= k < to then xs[k + 1]
              else if to < from && to < k <= from then xs[k - 1]
              else xs[k]
  {
  }

  /** Dragging the row back to where it came from restores the list. */
  lemma MoveBack<T>(xs: seq<T>, from: nat, to: nat)
    requires from < |xs| && to < |xs|
    ensures Move(Move(xs, from, to), to, from) == xs
  {
    var ys := Move(xs, from, to);
    var zs := Move(ys, to, from);
    forall k | 0 <= k < |xs| ensures zs[k] == xs[k] {
      MoveIndex(ys, to, from, k);
      if k != from {
        var j := if to < from && to <= k < from then k + 1 else if from < to && from < k <= to then k - 1 else k;
        MoveIndex(xs, from, to, j);
      } else {
        MoveIndex(xs, from, to, to);
      }
    }
  }

  /** After a reorder a new category is placed after all of them. */
  lemma {:induction false} NextAfterRenumber(cats: seq<CategoryRow>)
    ensures NextSortOrder(Renumber(cats)) == |cats|
  {
    var r := Renumber(cats);
    if cats != [] {
      var init := cats[..|cats| - 1];
      NextAfterRenumber(init);
      assert Renumber(init) == r[..|r| - 1];
    }
  }
}
