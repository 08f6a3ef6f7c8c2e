/** The two record kinds the organizer stores, with the fixed category and
    priority tables they refer to by id (src/utils/analyticsUtils.js). */
module Records {

  import opened Wrappers
  import opened Seqs

  /** A to-do item. Timestamps are instants in milliseconds. `completedAt`
      is absent on most stored tasks. */
  datatype Task = Task(
    id: string,
    title: string,
    description: string,
    isCompleted: bool,
    createdAt: int,
    completedAt: Option<int>,
    dueDate: int,
    priority: string,
    categoryId: string)

  /** A saved bookmark with its tags. */
  datatype Link = Link(
    id: string,
    url: string,
    title: string,
    description: string,
    createdAt: int,
    categoryId: string,
    tags: seq<string>)

  /** What a lookup shows: a display name and a color. */
  datatype Label = Label(name: string, color: string)

  /** A row of a fixed lookup table. */
  datatype Entry = Entry(id: string, name: string, color: string) {
    function ToLabel(): Label { Label(name, color) }
  }

  const Categories: seq<Entry> := [
    Entry("self-help", "Self Help", "#8b5cf6"),
    Entry("finance", "Finance", "#10b981"),
    Entry("tutorial", "Tutorial", "#3b82f6"),
    Entry("videos", "Videos", "#ef4444"),
    Entry("trips", "Trips", "#f59e0b"),
    Entry("work", "Work", "#6366f1"),
    Entry("personal", "Personal", "#ec4899")
  ]

  const Priorities: seq<Entry> := [
    Entry("low", "Low", "#10b981"),
    Entry("medium", "Medium", "#f59e0b"),
    Entry("high", "High", "#ef4444")
  ]

  const NumCategories := 7
  const NumPriorities := 3

  const Uncategorized := Label("Uncategorized", "#94a3b8")
  const DefaultPriority := Label("Medium", "#f59e0b")

  function Ids(table: seq<Entry>): (r: seq<string>)
    ensures |r| == |table|
    ensures forall i :: 0 <= i < |table| ==> r[i] == table[i].id
  {
    seq(|table|, i requires 0 <= i < |table| => table[i].id)
  }

  function Names(table: seq<Entry>): (r: seq<string>)
    ensures |r| == |table|
    ensures forall i :: 0 <= i < |table| ==> r[i] == table[i].name
  {
    seq(|table|, i requires 0 <= i < |table| => table[i].name)
  }

  function Colors(table: seq<Entry>): (r: seq<string>)
    ensures |r| == |table|
    ensures forall i :: 0 <= i < |table| ==> r[i] == table[i].color
  {
    seq(|table|, i requires 0 <= i < |table| => table[i].color)
  }

  /** Both tables have one row per id and one row per name. */
  lemma TablesWellFormed()
    ensures |Categories| == NumCategories && |Priorities| == NumPriorities
    ensures Distinct(Ids(Categories)) && Distinct(Names(Categories))
    ensures Distinct(Ids(Priorities)) && Distinct(Names(Priorities))
  {
  }

  /** `table.find(e => e.id === id) || fallback`: the label of the first row
      with that id, or the fallback when no row has it. */
  function Lookup(table: seq<Entry>, id: string, fallback: Label): (r: Label)
    ensures (forall i :: 0 <= i < |table| ==> table[i].id != id) ==> r == fallback
    ensures forall i :: 0 <= i < |table| && table[i].id == id ==>
                          (forall j :: 0 <= j < i ==> table[j].id != id) ==> r == table[i].ToLabel()
  {
    match IndexOf(Ids(table), id)
    case None => fallback
    case Some(i) => table[i].ToLabel()
  }

  /** `getCategoryById`: the category with that id, else "Uncategorized". */
  function CategoryById(id: string): (r: Label)
    ensures id !in Ids(Categories) ==> r == Uncategorized
    ensures forall i :: 0 <= i < NumCategories && Categories[i].id == id ==> r == Categories[i].ToLabel()
  {
    TablesWellFormed();
    Lookup(Categories, id, Uncategorized)
  }

  /** `getPriorityById`: the priority with that id, else the "Medium" label. */
  function PriorityById(id: string): (r: Label)
    ensures id !in Ids(Priorities) ==> r == DefaultPriority
    ensures forall i :: 0 <= i < NumPriorities && Priorities[i].id == id ==> r == Priorities[i].ToLabel()
  {
    TablesWellFormed();
    Lookup(Priorities, id, DefaultPriority)
  }

  /** The fallback category label is distinguishable from every real one, so
      a caller can tell an unknown id from a known one by its label. */
  lemma CategoryFallbackOnlyForUnknown(id: string)
    ensures CategoryById(id) == Uncategorized <==> id !in Ids(Categories)
  {
    if id in Ids(Categories) {
      var i :| 0 <= i < NumCategories && Categories[i].id == id;
      assert CategoryById(id) == Categories[i].ToLabel();
    }
  }
}
