/** The category registry: a list of categories held in memory, with create, merge-update
    and delete, and a listing that decorates each category with its open-task count. */
module Categories {
  import opened Outcomes
  import opened Seqs
  import opened Text
  import opened Tasks

  /** A stored category. Ids are text; create writes them as decimal numbers. */
  datatype Category = Category(Id: string, name: string, color: string, icon: string, taskCount: int)

  /** The fields a caller hands to create; `None` is a key the caller left out. */
  datatype CategoryInput = CategoryInput(name: string, color: Option<string>, icon: Option<string>)

  /** The object a caller hands to update: `Some(v)` is a key present with value `v`. */
  datatype CategoryPatch = CategoryPatch(
    Id: Option<string>,
    name: Option<string>,
    color: Option<string>,
    icon: Option<string>,
    taskCount: Option<int>)

  const DefaultColor: string := "#8B85F0"
  const DefaultIcon: string := "Folder"

  /** `(NaN + 1).toString()`. */
  const NaNText: string := "NaN"

  /** The predicate `c => c.Id === id` the registry looks categories up with. */
  function HasCategoryId(id: string): Category -> bool
  {
    (c: Category) => c.Id == id
  }

  /** The tasks a category's count takes in: of that category, not archived, not completed. */
  function OpenIn(id: string): Task -> bool
  {
    (t: Task) => t.categoryId == id && !t.archived && !t.completed
  }

  /** The `taskCount` getAll reports for the category with that Id. */
  function OpenCount(tasks: seq<Task>, id: string): nat
  {
    |Filter(tasks, OpenIn(id))|
  }

  /** getAll's result: every category in order, each field kept, `taskCount` replaced by
      the live count over the given task snapshot. */
  function WithCounts(categories: seq<Category>, tasks: seq<Task>): (r: seq<Category>)
    ensures |r| == |categories|
    ensures forall i :: 0 <= i < |r| ==>
              r[i] == categories[i].(taskCount := OpenCount(tasks, categories[i].Id))
  {
    seq(|categories|, i requires 0 <= i < |categories| =>
      categories[i].(taskCount := OpenCount(tasks, categories[i].Id)))
  }

  function CategoryId(c: Category): string
  {
    c.Id
  }

  /** The Ids of the categories, in order. */
  function CategoryIds(categories: seq<Category>): seq<string>
  {
    Keys(categories, CategoryId)
  }

  /** Every Id parses as a number, so `Math.max` over them is not NaN. */
  predicate AllNumeric(categories: seq<Category>)
  {
    forall c :: c in categories ==> ParseInt(c.Id).Some?
  }

  /** `categories.map(c => parseInt(c.Id))` when every Id is numeric. */
  function ParsedIds(categories: seq<Category>): (ns: seq<int>)
    requires AllNumeric(categories)
    ensures |ns| == |categories|
    ensures forall i :: 0 <= i < |categories| ==> ns[i] == ParseInt(categories[i].Id).value
  {
    seq(|categories|, i requires 0 <= i < |categories| =>
      assert categories[i] in categories; ParseInt(categories[i].Id).value)
  }

  /** The Id create assigns: one more than the largest numeric Id, as text; "1" for an
      empty registry; and "NaN" as soon as one Id is not numeric. */
  function NextCategoryId(categories: seq<Category>): (id: string)
    ensures |categories| == 0 ==> id == "1"
    ensures AllNumeric(categories) ==>
              ParseInt(id).Some? &&
              forall c :: c in categories ==> ParseInt(c.Id).value < ParseInt(id).value
    ensures AllNumeric(categories) ==> forall c :: c in categories ==> c.Id != id
    ensures AllNumeric(categories) ==> id == NatToString(ParseInt(id).value)
    ensures AllNumeric(categories) && |categories| > 0 ==>
              exists c :: c in categories && ParseInt(id).value == ParseInt(c.Id).value + 1
    ensures !AllNumeric(categories) ==> id == NaNText
  {
    if !AllNumeric(categories) then NaNText
    else
      var maxId := if |categories| > 0 then Max(ParsedIds(categories)) else 0;
      assert maxId >= 0 by {
        if |categories| > 0 {
          assert ParsedIds(categories)[0] >= 0;
        }
      }
      var id := NatToString(maxId + 1);
      ParseIntOfNatToString(maxId + 1);
      assert forall c :: c in categories ==> ParseInt(c.Id).value <= maxId by {
        forall c | c in categories ensures ParseInt(c.Id).value <= maxId {
          var i :| 0 <= i < |categories| && categories[i] == c;
          assert ParsedIds(categories)[i] == ParseInt(c.Id).value;
        }
      }
      assert |categories| > 0 ==>
               exists c :: c in categories && ParseInt(c.Id).value == maxId by {
        if |categories| > 0 {
          var i :| 0 <= i < |categories| && ParsedIds(categories)[i] == maxId;
          assert categories[i] in categories;
        }
      }
      id
  }

  /** The category create appends for `input`. */
  function NewCategory(categories: seq<Category>, input: CategoryInput): (c: Category)
    ensures c.Id == NextCategoryId(categories)
    ensures c.name == input.name && c.taskCount == 0
    ensures c.color == OrElse(input.color, DefaultColor)
    ensures c.icon == OrElse(input.icon, DefaultIcon)
  {
    Category(
      NextCategoryId(categories),
      input.name,
      OrElse(input.color, DefaultColor),
      OrElse(input.icon, DefaultIcon),
      0)
  }

  /** The category update stores: `{...c, ...p, Id: c.Id}`. */
  function MergeCategory(c: Category, p: CategoryPatch): (r: Category)
    ensures r.Id == c.Id
    ensures r.name == Pick(p.name, c.name) && r.color == Pick(p.color, c.color)
    ensures r.icon == Pick(p.icon, c.icon) && r.taskCount == Pick(p.taskCount, c.taskCount)
  {
    Category(c.Id, Pick(p.name, c.name), Pick(p.color, c.color), Pick(p.icon, c.icon), Pick(p.taskCount, c.taskCount))
  }

  /** The in-memory registry. */
  class CategoryRegistry {
    var categories: seq<Category>

    /** The registry starts from the categories it is seeded with. */
    constructor (initial: seq<Category>)
      ensures categories == initial
    {
      categories := initial;
    }

    /** getAll: the categories with their live counts; the stored list is only read. */
    function GetAll(tasks: seq<Task>): (r: seq<Category>)
      reads this
      ensures |r| == |categories|
      ensures forall i :: 0 <= i < |r| ==>
                r[i].(taskCount := categories[i].taskCount) == categories[i] &&
                r[i].taskCount == |Filter(tasks, OpenIn(categories[i].Id))|
    {
      WithCounts(categories, tasks)
    }

    /** getById: the first category with that Id, or not-found carrying the Id. */
    function GetById(id: string): (r: Outcome<Category, string>)
      reads this
      ensures r.NotFound? <==> forall c :: c in categories ==> c.Id != id
      ensures r.NotFound? ==> r.id == id
      ensures r.Ok? ==> exists i :: 0 <= i < |categories| && categories[i] == r.value && r.value.Id == id
                                   && forall j :: 0 <= j < i ==> categories[j].Id != id
    {
      var i := FindIndex(categories, HasCategoryId(id));
      if i == -1 then NotFound(id) else Ok(categories[i])
    }

    /** create: append a category with the next Id and the defaults, and return it. */
    method Create(input: CategoryInput) returns (c: Category)
      modifies this
      ensures c == NewCategory(old(categories), input)
      ensures categories == old(categories) + [c]
    {
      c := NewCategory(categories, input);
      categories := categories + [c];
    }

    /** update: merge the patch into the first category with that Id, in place. */
    method Update(id: string, patch: CategoryPatch) returns (r: Outcome<Category, string>)
      modifies this
      ensures var i := FindIndex(old(categories), HasCategoryId(id));
        if i == -1 then r == NotFound(id) && categories == old(categories)
        else r == Ok(MergeCategory(old(categories)[i], patch)) && categories == old(categories)[i := r.value]
    {
      var index := FindIndex(categories, HasCategoryId(id));
      if index == -1 {
        return NotFound(id);
      }
      var updated := MergeCategory(categories[index], patch);
      categories := categories[index := updated];
      r := Ok(updated);
    }

    /** delete: splice out the first category with that Id and return it. */
    method Delete(id: string) returns (r: Outcome<Category, string>)
      modifies this
      ensures var i := FindIndex(old(categories), HasCategoryId(id));
        if i == -1 then r == NotFound(id) && categories == old(categories)
        else r == Ok(old(categories)[i]) && categories == RemoveAt(old(categories), i)
    {
      var index := FindIndex(categories, HasCategoryId(id));
      if index == -1 {
        return NotFound(id);
      }
      r := Ok(categories[index]);
      categories := RemoveAt(categories, index);
    }
  }

  /** While every Id is numeric, create keeps Ids numeric and pairwise different. */
  lemma CreateKeepsCategoryIdsUnique(categories: seq<Category>, input: CategoryInput)
    requires AllNumeric(categories) && Distinct(CategoryIds(categories))
    ensures AllNumeric(categories + [NewCategory(categories, input)])
    ensures Distinct(CategoryIds(categories + [NewCategory(categories, input)]))
  {
    var grown := categories + [NewCategory(categories, input)];
    forall i, j | 0 <= i < j < |grown| ensures CategoryIds(grown)[i] != CategoryIds(grown)[j] {
      if j == |categories| {
        assert grown[i] in categories;
      } else {
        assert CategoryIds(categories)[i] != CategoryIds(categories)[j];
      }
    }
  }

  /** Once one Id is not numeric, every create hands out "NaN", so two creates in a row
      store two categories with the same Id. */
  lemma NaNIdRepeats(categories: seq<Category>, first: CategoryInput, second: CategoryInput)
    requires !AllNumeric(categories)
    ensures var c1 := NewCategory(categories, first);
            c1.Id == NaNText && NewCategory(categories + [c1], second).Id == c1.Id
  {
    var c1 := NewCategory(categories, first);
    var c :| c in categories && ParseInt(c.Id).None?;
    assert c in categories + [c1];
  }

  /** The "All Tasks" figure, the sum of the listed counts. */
  function TotalCount(categories: seq<Category>): int
  {
    if categories == [] then 0 else categories[0].taskCount + TotalCount(categories[1..])
  }

  function CategoryOf(t: Task): string
  {
    t.categoryId
  }

  lemma OpenCountIsCountBy(tasks: seq<Task>, id: string)
    ensures OpenCount(tasks, id) == CountBy(Filter(tasks, IsOpen), CategoryOf, id)
  {
    FilterFilter(tasks, IsOpen, KeyIs(CategoryOf, id));
    FilterExt(tasks, Both(IsOpen, KeyIs(CategoryOf, id)), OpenIn(id));
  }

  lemma {:induction false} TotalCountIsSum(categories: seq<Category>, tasks: seq<Task>)
    ensures TotalCount(WithCounts(categories, tasks)) == SumCounts(Filter(tasks, IsOpen), CategoryOf, CategoryIds(categories))
  {
    if categories != [] {
      OpenCountIsCountBy(tasks, categories[0].Id);
      TotalCountIsSum(categories[1..], tasks);
      assert WithCounts(categories, tasks)[1..] == WithCounts(categories[1..], tasks);
      assert CategoryIds(categories)[1..] == CategoryIds(categories[1..]);
    }
  }

  /** With distinct Ids, the listed counts add up to at most the number of open tasks:
      each open task is counted under its own category only. */
  lemma CountsWithinOpenTasks(categories: seq<Category>, tasks: seq<Task>)
    requires Distinct(CategoryIds(categories))
    ensures TotalCount(WithCounts(categories, tasks)) <= |Filter(tasks, IsOpen)|
  {
    TotalCountIsSum(categories, tasks);
    SumCountsBound(Filter(tasks, IsOpen), CategoryOf, CategoryIds(categories));
  }
}
