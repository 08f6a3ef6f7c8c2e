/** The task and link lists as MainFeature changes them: toggling, deleting,
    validating and submitting the two forms, the tag field's parse and
    prefill, the category filter and the link's href. */
module Store {

  import opened Wrappers
  import opened Seqs
  import opened Text
  import opened Records
  import opened Analytics

  // ---------------------------------------------------------------------
  // Toggling and deleting
  // ---------------------------------------------------------------------

  /** `toggleTaskCompletion`: flips `isCompleted` on the tasks carrying `id`
      and leaves every other field, and every other task, as it was. */
  function ToggleCompletion(tasks: seq<Task>, id: string): (r: seq<Task>)
    ensures |r| == |tasks|
    ensures forall i :: 0 <= i < |tasks| ==>
              r[i].isCompleted == (tasks[i].isCompleted != (tasks[i].id == id))
    ensures forall i :: 0 <= i < |tasks| ==> r[i].(isCompleted := tasks[i].isCompleted) == tasks[i]
  {
    Map(tasks, (t: Task) => if t.id == id then t.(isCompleted := !t.isCompleted) else t)
  }

  /** Toggling twice restores the list. */
  lemma ToggleTwice(tasks: seq<Task>, id: string)
    ensures ToggleCompletion(ToggleCompletion(tasks, id), id) == tasks
  {
    var once := ToggleCompletion(tasks, id);
    var twice := ToggleCompletion(once, id);
    forall i | 0 <= i < |tasks| ensures twice[i] == tasks[i] {
      assert once[i].id == tasks[i].id;
    }
  }

  /** The predicate `deleteTask` filters with. */
  function OtherTask(id: string): Task -> bool {
    (t: Task) => t.id != id
  }

  /** The predicate `deleteLink` filters with. */
  function OtherLink(id: string): Link -> bool {
    (l: Link) => l.id != id
  }

  /** `deleteTask`: exactly the tasks with another id remain, and the list
      shrinks if and only if some task carried `id`. */
  function DeleteTask(tasks: seq<Task>, id: string): (r: seq<Task>)
    ensures forall t :: t in r <==> t in tasks && t.id != id
    ensures |r| <= |tasks|
    ensures |r| == |tasks| <==> forall i :: 0 <= i < |tasks| ==> tasks[i].id != id
  {
    Filter(tasks, OtherTask(id))
  }

  /** `deleteLink`: exactly the links with another id remain, and the list
      shrinks if and only if some link carried `id`. */
  function DeleteLink(links: seq<Link>, id: string): (r: seq<Link>)
    ensures forall l :: l in r <==> l in links && l.id != id
    ensures |r| <= |links|
    ensures |r| == |links| <==> forall i :: 0 <= i < |links| ==> links[i].id != id
  {
    Filter(links, OtherLink(id))
  }

  /** Deleting is idempotent and commutes with concatenation, so the
      survivors keep their relative order. */
  lemma DeleteTaskIdempotent(tasks: seq<Task>, id: string)
    ensures DeleteTask(DeleteTask(tasks, id), id) == DeleteTask(tasks, id)
  {
    FilterIdempotent(tasks, OtherTask(id));
  }

  lemma DeleteTaskSplits(a: seq<Task>, b: seq<Task>, id: string)
    ensures DeleteTask(a + b, id) == DeleteTask(a, id) + DeleteTask(b, id)
  {
    FilterConcat(a, b, OtherTask(id));
  }

  lemma DeleteLinkIdempotent(links: seq<Link>, id: string)
    ensures DeleteLink(DeleteLink(links, id), id) == DeleteLink(links, id)
  {
    FilterIdempotent(links, OtherLink(id));
  }

  lemma DeleteLinkSplits(a: seq<Link>, b: seq<Link>, id: string)
    ensures DeleteLink(a + b, id) == DeleteLink(a, id) + DeleteLink(b, id)
  {
    FilterConcat(a, b, OtherLink(id));
  }

  // ---------------------------------------------------------------------
  // The task form
  // ---------------------------------------------------------------------

  /** The task form's fields as typed; `dueDate` is the date input's text. */
  datatype TaskForm = TaskForm(title: string, description: string, dueDate: string,
                               priority: string, categoryId: string)

  /** The link form's fields as typed; `tags` is the comma-separated text. */
  datatype LinkForm = LinkForm(url: string, title: string, description: string,
                               categoryId: string, tags: string)

  /** A submission either stops with the error object shown under the form,
      or saves the new list. */
  datatype Outcome<T> = Rejected(errors: map<string, string>) | Saved(items: seq<T>)

  /** Blank in the sense of `!s.trim()`: nothing but white space. */
  predicate Blank(s: string) {
    Trim(s) == []
  }

  /** `editingItemId` is truthy: an id that is not the empty string. */
  predicate Editing(editing: Option<string>) {
    editing.Some? && editing.value != ""
  }

  /** The validation of `handleTaskSubmit`: a title error exactly when the
      title is white space only, a due-date error exactly when no date was
      entered, and no other keys. */
  function TaskErrors(form: TaskForm): (e: map<string, string>)
    ensures "title" in e <==> forall k :: 0 <= k < |form.title| ==> IsSpace(form.title[k])
    ensures "title" in e ==> e["title"] == "Title is required"
    ensures "dueDate" in e <==> form.dueDate == ""
    ensures "dueDate" in e ==> e["dueDate"] == "Due date is required"
    ensures e.Keys <= {"title", "dueDate"}
  {
    var e0: map<string, string> := map[];
    var e1 := if Blank(form.title) then e0["title" := "Title is required"] else e0;
    if form.dueDate == "" then e1["dueDate" := "Due date is required"] else e1
  }

  /** The task `handleTaskSubmit` appends when not editing. */
  function NewTask(form: TaskForm, newId: string, now: int, toTimestamp: string -> int): Task {
    Task(newId, form.title, form.description, false, now, None,
         toTimestamp(form.dueDate), form.priority, form.categoryId)
  }

  /** The fields an edit takes from the form; everything else is kept. */
  function EditedTask(t: Task, form: TaskForm, toTimestamp: string -> int): Task {
    t.(title := form.title, description := form.description, dueDate := toTimestamp(form.dueDate),
       priority := form.priority, categoryId := form.categoryId)
  }

  /** The edit branch of `handleTaskSubmit`: the tasks carrying `id` get the
      five form fields and keep their id, completion and timestamps; every
      other task is unchanged. */
  function EditTasks(tasks: seq<Task>, form: TaskForm, id: string, toTimestamp: string -> int): (r: seq<Task>)
    ensures |r| == |tasks|
    ensures forall i :: 0 <= i < |tasks| ==>
              && r[i].id == tasks[i].id
              && r[i].isCompleted == tasks[i].isCompleted
              && r[i].createdAt == tasks[i].createdAt
              && r[i].completedAt == tasks[i].completedAt
              && (tasks[i].id == id ==> r[i] == EditedTask(tasks[i], form, toTimestamp))
              && (tasks[i].id != id ==> r[i] == tasks[i])
  {
    Map(tasks, (t: Task) => if t.id == id then EditedTask(t, form, toTimestamp) else t)
  }

  /** `handleTaskSubmit`. Rejected exactly when validation finds an error;
      otherwise an edit rewrites the tasks carrying the edited id, while an
      add appends one open task with the fresh id. `newId`, `now` and
      `toTimestamp` stand for `Date.now()`, `new Date()` and
      `new Date(dueDate)`. */
  function SubmitTask(tasks: seq<Task>, form: TaskForm, editing: Option<string>,
                      newId: string, now: int, toTimestamp: string -> int): (o: Outcome<Task>)
    ensures o.Rejected? <==> Blank(form.title) || form.dueDate == ""
    ensures o.Rejected? ==> o.errors == TaskErrors(form) && |o.errors| > 0
    ensures o.Saved? && Editing(editing) ==> o.items == EditTasks(tasks, form, editing.value, toTimestamp)
    ensures o.Saved? && !Editing(editing) ==>
              && |o.items| == |tasks| + 1
              && o.items[..|tasks|] == tasks
              && o.items[|tasks|].id == newId
              && !o.items[|tasks|].isCompleted
              && o.items[|tasks|].completedAt.None?
              && o.items[|tasks|].createdAt == now
              && o.items[|tasks|].title == form.title
              && o.items[|tasks|].description == form.description
              && o.items[|tasks|].dueDate == toTimestamp(form.dueDate)
              && o.items[|tasks|].priority == form.priority
              && o.items[|tasks|].categoryId == form.categoryId
  {
    var errors := TaskErrors(form);
    if |errors| > 0 then
      Rejected(errors)
    else if Editing(editing) then
      Saved(EditTasks(tasks, form, editing.value, toTimestamp))
    else
      Saved(tasks + [NewTask(form, newId, now, toTimestamp)])
  }

  /** Adding a task under an unused id and then deleting that id gives the
      list back. */
  lemma AddThenDeleteTask(tasks: seq<Task>, form: TaskForm, newId: string, now: int,
                          toTimestamp: string -> int)
    requires forall i :: 0 <= i < |tasks| ==> tasks[i].id != newId
    requires !Blank(form.title) && form.dueDate != ""
    ensures SubmitTask(tasks, form, None, newId, now, toTimestamp).Saved?
    ensures DeleteTask(SubmitTask(tasks, form, None, newId, now, toTimestamp).items, newId) == tasks
  {
    var added := NewTask(form, newId, now, toTimestamp);
    var e := TaskErrors(form);
    assert "title" !in e && "dueDate" !in e;
    assert e == map[];
    assert SubmitTask(tasks, form, None, newId, now, toTimestamp).items == tasks + [added];
    FilterSnoc(tasks, added, OtherTask(newId));
    FilterKeepsAll(tasks, OtherTask(newId));
  }

  // ---------------------------------------------------------------------
  // The link form
  // ---------------------------------------------------------------------

  /** The validation of `handleLinkSubmit`. A URL that is not empty and
      fails the pattern gets the format error, which replaces the
      missing-URL error; a URL that is white space only and passes the
      pattern gets the missing-URL error; a title error exactly when the
      title is white space only. `urlPattern` stands for the regular
      expression's test. */
  function LinkErrors(form: LinkForm, urlPattern: string -> bool): (e: map<string, string>)
    ensures form.url != "" && !urlPattern(form.url) ==> "url" in e && e["url"] == "Please enter a valid URL"
    ensures (form.url == "" || urlPattern(form.url)) ==>
              ("url" in e <==> forall k :: 0 <= k < |form.url| ==> IsSpace(form.url[k]))
    ensures "url" in e && (form.url == "" || urlPattern(form.url)) ==> e["url"] == "URL is required"
    ensures "title" in e <==> forall k :: 0 <= k < |form.title| ==> IsSpace(form.title[k])
    ensures "title" in e ==> e["title"] == "Title is required"
    ensures e.Keys <= {"url", "title"}
  {
    var e0: map<string, string> := map[];
    var e1 := if Blank(form.url) then e0["url" := "URL is required"] else e0;
    var e2 := if Blank(form.title) then e1["title" := "Title is required"] else e1;
    if form.url != "" && !urlPattern(form.url) then e2["url" := "Please enter a valid URL"] else e2
  }

  /** A tag survives the parse when it is not empty. */
  predicate IsTag(t: string) {
    t != ""
  }

  /** The tag field's parse: split at commas, trim each piece, drop the
      empty ones. Every tag is non-empty, trimmed and free of commas. */
  function ParseTags(s: string): (tags: seq<string>)
    ensures forall i :: 0 <= i < |tags| ==> IsTag(tags[i]) && Trimmed(tags[i]) && ',' !in tags[i]
    ensures s == "" ==> tags == []
  {
    if s == "" then []
    else
      var pieces := Split(s, ',');
      var trimmed := Map(pieces, Trim);
      forall i | 0 <= i < |pieces| ensures ',' !in trimmed[i] {
        TrimKeepsOut(pieces[i], ',');
      }
      Filter(trimmed, IsTag)
  }

  /** The tags a list of comma-separated pieces yields: each piece trimmed,
      the empty ones dropped. */
  function TagsOf(pieces: seq<string>): seq<string> {
    Filter(Map(pieces, Trim), IsTag)
  }

  /** The pieces of a concatenation yield their tags in order. */
  lemma TagsOfConcat(x: seq<string>, y: seq<string>)
    ensures TagsOf(x + y) == TagsOf(x) + TagsOf(y)
  {
    MapConcat(x, y, Trim);
    FilterConcat(Map(x, Trim), Map(y, Trim), IsTag);
  }

  /** One piece yields its trimmed text, unless that is empty. */
  lemma TagsOfOne(p: string)
    ensures TagsOf([p]) == if Blank(p) then [] else [Trim(p)]
  {
    assert Map([p], Trim) == [] + [Trim(p)];
    FilterSnoc([], Trim(p), IsTag);
  }

  /** The parse is split, trim and filter for every field, the empty one
      included: `"".split(',')` is `[""]`, whose one piece is dropped. */
  lemma ParseTagsUnfold(s: string)
    ensures ParseTags(s) == TagsOf(Split(s, ','))
  {
    if s == "" {
      assert Split(s, ',') == [""];
      TagsOfOne("");
    }
  }

  /** A field without commas holds one tag, its trimmed text, unless it is
      blank. */
  lemma ParseOnePiece(p: string)
    requires ',' !in p
    ensures ParseTags(p) == if Blank(p) then [] else [Trim(p)]
  {
    ParseTagsUnfold(p);
    SplitPlain(p, ',');
    TagsOfOne(p);
  }

  /** The tags before the first comma come first, followed by the tags of
      the rest of the field. */
  lemma ParseAtComma(a: string, b: string)
    requires ',' !in a
    ensures ParseTags(a + [','] + b) == ParseTags(a) + ParseTags(b)
  {
    ParseTagsUnfold(a + [','] + b);
    ParseTagsUnfold(b);
    ParseTagsUnfold(a);
    SplitPlain(a, ',');
    SplitAtFirst(a, ',', b);
    TagsOfConcat([a], Split(b, ','));
  }

  /** Trimming never introduces a character. */
  lemma TrimKeepsOut(s: string, c: char)
    requires c !in s
    ensures c !in Trim(s)
  {
    var t := TrimStart(s);
    var r := Trim(s);
    forall k | 0 <= k < |r| ensures r[k] != c {
      assert r[k] == t[k] == s[|s| - |t| + k];
    }
  }

  /** Tags as the submit's parse produces them. */
  predicate WellFormedTags(tags: seq<string>) {
    forall i :: 0 <= i < |tags| ==> IsTag(tags[i]) && Trimmed(tags[i]) && ',' !in tags[i]
  }

  /** `editLink`'s prefill of the tag field: the submit's parse of the
      prefilled field gives back any list of well-formed tags. */
  function JoinTags(tags: seq<string>): (r: string)
    ensures WellFormedTags(tags) ==> ParseTags(r) == tags
  {
    if WellFormedTags(tags) then
      TagsRoundTrip(tags);
      Join(tags, ", ")
    else
      Join(tags, ", ")
  }

  /** The link `handleLinkSubmit` appends when not editing. */
  function NewLink(form: LinkForm, newId: string, now: int): Link {
    Link(newId, form.url, form.title, form.description, now, form.categoryId, ParseTags(form.tags))
  }

  /** The fields an edit takes from the form; id and creation time are kept. */
  function EditedLink(l: Link, form: LinkForm): Link {
    l.(url := form.url, title := form.title, description := form.description,
       categoryId := form.categoryId, tags := ParseTags(form.tags))
  }

  /** The edit branch of `handleLinkSubmit`: the links carrying `id` get the
      form's fields and parsed tags and keep their id and creation time;
      every other link is unchanged. */
  function EditLinks(links: seq<Link>, form: LinkForm, id: string): (r: seq<Link>)
    ensures |r| == |links|
    ensures forall i :: 0 <= i < |links| ==>
              && r[i].id == links[i].id
              && r[i].createdAt == links[i].createdAt
              && (links[i].id == id ==> r[i] == EditedLink(links[i], form))
              && (links[i].id != id ==> r[i] == links[i])
  {
    Map(links, (l: Link) => if l.id == id then EditedLink(l, form) else l)
  }

  /** A link submission is rejected exactly when the URL or the title is
      blank, or a non-empty URL fails the pattern. */
  lemma LinkRejection(form: LinkForm, urlPattern: string -> bool)
    ensures |LinkErrors(form, urlPattern)| > 0 <==>
              Blank(form.url) || Blank(form.title) || (form.url != "" && !urlPattern(form.url))
  {
    var e := LinkErrors(form, urlPattern);
    if Blank(form.url) && (form.url == "" || urlPattern(form.url)) {
      assert "url" in e;
    }
    if Blank(form.title) {
      assert "title" in e;
    }
    if |e| > 0 {
      var k :| k in e;
    }
  }

  /** `handleLinkSubmit`. Rejected exactly when validation finds an error;
      otherwise an edit rewrites the links carrying the edited id, while an
      add appends one link with the fresh id; either way the stored tags are
      the parsed tag field. */
  function SubmitLink(links: seq<Link>, form: LinkForm, editing: Option<string>,
                      newId: string, now: int, urlPattern: string -> bool): (o: Outcome<Link>)
    ensures o.Rejected? <==> Blank(form.url) || Blank(form.title) || (form.url != "" && !urlPattern(form.url))
    ensures o.Rejected? ==> o.errors == LinkErrors(form, urlPattern) && |o.errors| > 0
    ensures o.Saved? && Editing(editing) ==> o.items == EditLinks(links, form, editing.value)
    ensures o.Saved? && !Editing(editing) ==>
              && |o.items| == |links| + 1
              && o.items[..|links|] == links
              && o.items[|links|].id == newId
              && o.items[|links|].createdAt == now
              && o.items[|links|].tags == ParseTags(form.tags)
              && o.items[|links|].url == form.url
              && o.items[|links|].title == form.title
              && o.items[|links|].description == form.description
              && o.items[|links|].categoryId == form.categoryId
  {
    var errors := LinkErrors(form, urlPattern);
    LinkRejection(form, urlPattern);
    if |errors| > 0 then
      Rejected(errors)
    else if Editing(editing) then
      Saved(EditLinks(links, form, editing.value))
    else
      Saved(links + [NewLink(form, newId, now)])
  }

  // ---------------------------------------------------------------------
  // The tag round trip: editLink's prefill, then the submit's parse
  // ---------------------------------------------------------------------

  /** Each tag after the first, preceded by the space of the ", " separator. */
  function Spaced(ts: seq<string>): (r: seq<string>)
    ensures |r| == |ts|
    ensures forall i :: 0 <= i < |ts| ==> r[i] == " " + ts[i]
  {
    seq(|ts|, i requires 0 <= i < |ts| => " " + ts[i])
  }

  /** A prefix of the first piece can be pulled out of a join. */
  lemma JoinPrefixFirst(p: string, x: string, ys: seq<string>, sep: string)
    ensures Join([p + x] + ys, sep) == p + Join([x] + ys, sep)
  {
    if ys != [] {
      assert ([p + x] + ys)[1..] == ys;
      assert ([x] + ys)[1..] == ys;
    }
  }

  /** Joining with ", " is joining with "," after putting a space in front
      of every piece but the first. */
  lemma {:induction false} JoinCommaSpace(tags: seq<string>)
    requires |tags| >= 1
    ensures Join(tags, ", ") == Join([tags[0]] + Spaced(tags[1..]), ",")
  {
    var rest := tags[1..];
    if |rest| >= 1 {
      JoinCommaSpace(rest);
      var sp := Spaced(rest);
      assert sp == [" " + rest[0]] + Spaced(rest[1..]);
      JoinPrefixFirst(" ", rest[0], Spaced(rest[1..]), ",");
      assert ([tags[0]] + sp)[1..] == sp;
      assert rest[1..] == tags[2..];
    } else {
      assert Spaced(rest) == [];
    }
  }

  /** Tags as the parse produces them come back unchanged from the prefill
      followed by the parse. */
  lemma TagsRoundTrip(tags: seq<string>)
    requires WellFormedTags(tags)
    ensures ParseTags(Join(tags, ", ")) == tags
  {
    if |tags| >= 1 {
      var parts := [tags[0]] + Spaced(tags[1..]);
      assert Join(tags, ", ") == Join(parts, [',']) by {
        JoinCommaSpace(tags);
      }
      assert Join(tags, ", ") != "" by {
        JoinHead(tags[0], Spaced(tags[1..]), ",");
      }
      assert Split(Join(tags, ", "), ',') == parts by {
        SplitJoin(parts, ',');
      }
      PaddedIsSpaced(tags);
      TrimPieces(tags);
      FilterKeepsAll(tags, IsTag);
    }
  }

  /** The pieces between the commas of the prefill: each tag after the
      first still carries the space of the separator. */
  function Padded(tags: seq<string>): (r: seq<string>)
    requires |tags| >= 1
    ensures |r| == |tags|
    ensures r[0] == tags[0]
    ensures forall i :: 1 <= i < |tags| ==> r[i] == " " + tags[i]
  {
    seq(|tags|, i requires 0 <= i < |tags| => if i == 0 then tags[0] else " " + tags[i])
  }

  lemma PaddedIsSpaced(tags: seq<string>)
    requires |tags| >= 1
    ensures Padded(tags) == [tags[0]] + Spaced(tags[1..])
  {
    var a := Padded(tags);
    var b := [tags[0]] + Spaced(tags[1..]);
    forall i | 1 <= i < |tags| ensures a[i] == b[i] {
      assert b[i] == Spaced(tags[1..])[i - 1];
    }
  }

  /** Trimming the pieces of the prefill recovers the tags. */
  lemma TrimPieces(tags: seq<string>)
    requires |tags| >= 1
    requires forall i :: 0 <= i < |tags| ==> Trimmed(tags[i])
    ensures Map(Padded(tags), Trim) == tags
  {
    var parts := Padded(tags);
    var m := Map(parts, Trim);
    forall i | 0 <= i < |m| ensures m[i] == tags[i] {
      if i == 0 {
        TrimOfTrimmed(tags[0]);
      } else {
        TrimPadded(tags[i]);
      }
    }
  }

  /** The space the separator leaves before a trimmed tag is trimmed away. */
  lemma TrimPadded(t: string)
    requires Trimmed(t)
    ensures Trim(" " + t) == t
  {
    TrimLeadingSpace(t);
    TrimOfTrimmed(t);
  }

  /** The join starts with its first piece. */
  lemma JoinHead(x: string, ys: seq<string>, sep: string)
    ensures x <= Join([x] + ys, sep)
  {
    if ys != [] {
      assert ([x] + ys)[1..] == ys;
    }
  }

  /** Opening a link for editing and saving it unchanged keeps its tags. */
  lemma ReparseIsStable(s: string)
    ensures ParseTags(JoinTags(ParseTags(s))) == ParseTags(s)
  {
  }

  // ---------------------------------------------------------------------
  // The category filter and the link target
  // ---------------------------------------------------------------------

  /** The predicate of `filteredTasks`. */
  function TaskShown(filter: string): Task -> bool {
    (t: Task) => filter == "all" || t.categoryId == filter
  }

  /** The predicate of `filteredLinks`. */
  function LinkShown(filter: string): Link -> bool {
    (l: Link) => filter == "all" || l.categoryId == filter
  }

  /** `filteredTasks`: everything under "all", otherwise exactly the tasks
      of that category, in list order. */
  function FilteredTasks(tasks: seq<Task>, filter: string): (r: seq<Task>)
    ensures filter == "all" ==> r == tasks
    ensures forall t :: t in r <==> t in tasks && (filter == "all" || t.categoryId == filter)
  {
    if filter == "all" then
      FilterKeepsAll(tasks, TaskShown(filter));
      Filter(tasks, TaskShown(filter))
    else
      Filter(tasks, TaskShown(filter))
  }

  /** `filteredLinks`: everything under "all", otherwise exactly the links
      of that category, in list order. */
  function FilteredLinks(links: seq<Link>, filter: string): (r: seq<Link>)
    ensures filter == "all" ==> r == links
    ensures forall l :: l in r <==> l in links && (filter == "all" || l.categoryId == filter)
  {
    if filter == "all" then
      FilterKeepsAll(links, LinkShown(filter));
      Filter(links, LinkShown(filter))
    else
      Filter(links, LinkShown(filter))
  }

  /** Filtering distributes over concatenation, so the shown tasks keep
      their relative order. */
  lemma FilteredTasksSplits(a: seq<Task>, b: seq<Task>, filter: string)
    ensures FilteredTasks(a + b, filter) == FilteredTasks(a, filter) + FilteredTasks(b, filter)
  {
    FilterConcat(a, b, TaskShown(filter));
  }

  /** Filtering distributes over concatenation, so the shown links keep
      their relative order. */
  lemma FilteredLinksSplits(a: seq<Link>, b: seq<Link>, filter: string)
    ensures FilteredLinks(a + b, filter) == FilteredLinks(a, filter) + FilteredLinks(b, filter)
  {
    FilterConcat(a, b, LinkShown(filter));
  }

  /** Under a category filter the list shows as many tasks as the analytics
      count for that category. */
  lemma {:induction false} FilteredTasksMatchCount(tasks: seq<Task>, filter: string)
    requires filter != "all"
    ensures |FilteredTasks(tasks, filter)| == Occurrences(TaskCategoryIds(tasks), filter)
  {
    if tasks != [] {
      var front := tasks[..|tasks| - 1];
      var x := tasks[|tasks| - 1];
      assert tasks == front + [x];
      FilteredTasksMatchCount(front, filter);
      FilterSnoc(front, x, TaskShown(filter));
      assert TaskCategoryIds(tasks) == TaskCategoryIds(front) + [x.categoryId];
      OccurrencesSnoc(TaskCategoryIds(front), x.categoryId, filter);
    }
  }

  /** Under a category filter the list shows as many links as the analytics
      count for that category. */
  lemma {:induction false} FilteredLinksMatchCount(links: seq<Link>, filter: string)
    requires filter != "all"
    ensures |FilteredLinks(links, filter)| == Occurrences(LinkCategoryIds(links), filter)
  {
    if links != [] {
      var front := links[..|links| - 1];
      var x := links[|links| - 1];
      assert links == front + [x];
      FilteredLinksMatchCount(front, filter);
      FilterSnoc(front, x, LinkShown(filter));
      assert LinkCategoryIds(links) == LinkCategoryIds(front) + [x.categoryId];
      OccurrencesSnoc(LinkCategoryIds(front), x.categoryId, filter);
    }
  }

  /** The link's `href`: kept when it starts with "http", otherwise given an
      "https://" scheme; the result always starts with "http". */
  function Href(url: string): (r: string)
    ensures StartsWith(r, "http")
    ensures StartsWith(url, "http") ==> r == url
    ensures !StartsWith(url, "http") ==> StartsWith(r, "https://") && r[8..] == url
  {
    if StartsWith(url, "http") then url else "https://" + url
  }

  /** Normalising the target a second time changes nothing. */
  lemma HrefIdempotent(url: string)
    ensures Href(Href(url)) == Href(url)
  {
  }
}
