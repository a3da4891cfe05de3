/**
 * Task categories: named, optionally coloured groups of a household's
 * tasks, listed by their sort order. A household never has two categories
 * of the same name.
 */
module TaskCategories {
  import opened Wrappers
  import opened Dates
  import opened Types
  import opened Query

  datatype TaskCategory = TaskCategory(
    id: Uuid,
    householdId: Uuid,
    name: string,
    color: Option<string>,
    sortOrder: int,
    createdAt: Instant)

  datatype CreateTaskCategoryRequest = CreateTaskCategoryRequest(name: string, color: Option<string>, sortOrder: Option<int>)

  /** An update; a colour can be set here but not cleared. */
  datatype UpdateTaskCategoryRequest = UpdateTaskCategoryRequest(name: Option<string>, color: Option<string>, sortOrder: Option<int>)

  datatype TaskCategoryError = NotFound | DuplicateName

  predicate IdsUnique(cs: seq<TaskCategory>)
  {
    forall i, j :: 0 <= i < j < |cs| ==> cs[i].id != cs[j].id
  }

  /** The unique index on (household, name). */
  predicate NamesUnique(cs: seq<TaskCategory>)
  {
    forall i, j :: 0 <= i < j < |cs| && cs[i].householdId == cs[j].householdId ==> cs[i].name != cs[j].name
  }

  function FindCategory(cs: seq<TaskCategory>, id: Uuid): (r: Option<nat>)
    ensures r.Some? ==> r.value < |cs| && cs[r.value].id == id
    ensures r.None? <==> forall i :: 0 <= i < |cs| ==> cs[i].id != id
  {
    if cs == [] then None
    else if cs[|cs| - 1].id == id then Some(|cs| - 1)
    else FindCategory(cs[..|cs| - 1], id)
  }

  /** Whether a row other than the one at skip already has this name in this household. */
  predicate NameTaken(cs: seq<TaskCategory>, householdId: Uuid, name: string, skip: Option<nat>)
  {
    exists k :: 0 <= k < |cs| && Some(k) != skip && cs[k].householdId == householdId && cs[k].name == name
  }

  /** The row create_category inserts: sort order 0 unless given. */
  function NewCategory(householdId: Uuid, req: CreateTaskCategoryRequest, id: Uuid, now: Instant): (c: TaskCategory)
    ensures req.sortOrder.None? ==> c.sortOrder == 0
    ensures req.sortOrder.Some? ==> c.sortOrder == req.sortOrder.value
    ensures c.id == id && c.householdId == householdId && c.name == req.name && c.color == req.color
    ensures c.createdAt == now
  {
    TaskCategory(id, householdId, req.name, req.color, req.sortOrder.UnwrapOr(0), now)
  }

  /** update_category's merge: only the given fields change. */
  function MergeCategory(c: TaskCategory, req: UpdateTaskCategoryRequest): (r: TaskCategory)
    ensures r.id == c.id && r.householdId == c.householdId && r.createdAt == c.createdAt
    ensures r.name == (if req.name.Some? then req.name.value else c.name)
    ensures r.color == (if req.color.Some? then req.color else c.color)
    ensures r.sortOrder == (if req.sortOrder.Some? then req.sortOrder.value else c.sortOrder)
    ensures c.color.Some? ==> r.color.Some?
  {
    c.(name := req.name.UnwrapOr(c.name),
       color := if req.color.Some? then req.color else c.color,
       sortOrder := req.sortOrder.UnwrapOr(c.sortOrder))
  }

  lemma MergeCategoryIdempotent(c: TaskCategory, req: UpdateTaskCategoryRequest)
    ensures MergeCategory(MergeCategory(c, req), req) == MergeCategory(c, req)
    ensures req == UpdateTaskCategoryRequest(None, None, None) ==> MergeCategory(c, req) == c
  {
  }

  function InHousehold(householdId: Uuid): TaskCategory -> bool
  {
    (c: TaskCategory) => c.householdId == householdId
  }

  /** ORDER BY sort_order ASC, name ASC; names compare code point by code point. */
  function BySortOrder(): TaskCategory -> seq<int>
  {
    (c: TaskCategory) => [c.sortOrder] + IntsOfString(c.name)
  }

  /** Whether a is listed before b. */
  predicate ListedBefore(a: TaskCategory, b: TaskCategory)
  {
    a.sortOrder < b.sortOrder || (a.sortOrder == b.sortOrder && KeyLess(IntsOfString(a.name), IntsOfString(b.name)))
  }

  lemma BySortOrderKey(a: TaskCategory, b: TaskCategory)
    ensures KeyLess(BySortOrder()(a), BySortOrder()(b)) <==> ListedBefore(a, b)
  {
    assert BySortOrder()(a)[1..] == IntsOfString(a.name);
    assert BySortOrder()(b)[1..] == IntsOfString(b.name);
  }

  /**
   * list_categories: every category of the household, by sort order and,
   * within one sort order, by name.
   */
  function ListCategories(cs: seq<TaskCategory>, householdId: Uuid): (r: seq<TaskCategory>)
    ensures forall i :: 0 <= i < |r| ==> r[i] in cs && r[i].householdId == householdId
    ensures forall i :: 0 <= i < |cs| && cs[i].householdId == householdId ==> cs[i] in r
    ensures |r| == Count(cs, InHousehold(householdId))
    ensures forall i, j :: 0 <= i < j < |r| ==> !ListedBefore(r[j], r[i])
    ensures forall i, j :: 0 <= i < j < |r| ==> r[i].sortOrder <= r[j].sortOrder
  {
    var r := Select(cs, InHousehold(householdId), BySortOrder());
    forall i, j | 0 <= i < j < |r|
      ensures !ListedBefore(r[j], r[i])
    {
      BySortOrderKey(r[j], r[i]);
    }
    r
  }

  class CategoryStore {
    var categories: seq<TaskCategory>

    predicate Valid()
      reads this
    {
      IdsUnique(categories) && NamesUnique(categories)
    }

    constructor ()
      ensures categories == [] && Valid()
    {
      categories := [];
    }

    /** create_category with the fresh id id: DuplicateName when the household has the name already. */
    method CreateCategory(householdId: Uuid, req: CreateTaskCategoryRequest, id: Uuid, now: Instant)
      returns (res: Result<TaskCategory, TaskCategoryError>)
      requires Valid() && FindCategory(categories, id).None?
      modifies this
      ensures Valid()
      ensures NameTaken(old(categories), householdId, req.name, None) ==>
        res == Err(DuplicateName) && categories == old(categories)
      ensures !NameTaken(old(categories), householdId, req.name, None) ==>
        res == Ok(NewCategory(householdId, req, id, now)) && categories == old(categories) + [res.value]
    {
      if NameTaken(categories, householdId, req.name, None) {
        return Err(DuplicateName);
      }
      var c := NewCategory(householdId, req, id, now);
      categories := categories + [c];
      res := Ok(c);
    }

    /**
     * update_category: NotFound for an unknown id, DuplicateName when the
     * new name belongs to another category of the household, else the merge.
     */
    method UpdateCategory(id: Uuid, req: UpdateTaskCategoryRequest)
      returns (res: Result<TaskCategory, TaskCategoryError>)
      requires Valid()
      modifies this
      ensures Valid()
      ensures match old(FindCategory(categories, id))
        case None => res == Err(NotFound) && categories == old(categories)
        case Some(i) =>
          var merged := MergeCategory(old(categories[i]), req);
          if NameTaken(old(categories), merged.householdId, merged.name, Some(i))
          then res == Err(DuplicateName) && categories == old(categories)
          else res == Ok(merged) && categories == old(categories)[i := merged]
    {
      var found := FindCategory(categories, id);
      if found.None? {
        return Err(NotFound);
      }
      var i := found.value;
      var merged := MergeCategory(categories[i], req);
      if NameTaken(categories, merged.householdId, merged.name, Some(i)) {
        return Err(DuplicateName);
      }
      categories := categories[i := merged];
      res := Ok(merged);
    }

    /** delete_category: NotFound when no row goes, else the row goes. */
    method DeleteCategory(id: Uuid) returns (res: Result<(), TaskCategoryError>)
      requires Valid()
      modifies this
      ensures Valid()
      ensures match old(FindCategory(categories, id))
        case None => res == Err(NotFound) && categories == old(categories)
        case Some(i) => res == Ok(()) && categories == RemoveAt(old(categories), i)
    {
      var found := FindCategory(categories, id);
      if found.None? {
        return Err(NotFound);
      }
      categories := RemoveAt(categories, found.value);
      res := Ok(());
    }
  }
}
