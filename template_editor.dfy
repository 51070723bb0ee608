/** The in-memory editing logic of the template editor pages. `CreateTemplate.tsx` and
    `EditTemplate.tsx` carry the same tag list, question list, drag reordering and submit
    validation; they differ in that only the Create page caps the questions of one type at four,
    and only the Edit page starts from a template loaded from the backend. The two are the two
    values of `Variant`. */
module TemplateEditor {
  import opened Common
  import opened Seqs
  import opened Text

  /** At most this many tags per template (both pages). */
  const MaxTags := 5
  /** At most this many questions of one type (Create page only). */
  const MaxQuestionsPerType := 4

  /** Which page the editor state belongs to. */
  datatype Variant = Create | Edit

  datatype QuestionType = SingleLine | MultiLine | Integer | Checkbox

  datatype Question = Question(
    id: Id,
    title: string,
    description: string,
    questionType: QuestionType,
    showInTable: bool,
    orderIndex: int)

  /** `Partial<Question>`: the fields an update overwrites; an absent field is kept. */
  datatype QuestionPatch = QuestionPatch(
    id: Option<Id>,
    title: Option<string>,
    description: Option<string>,
    questionType: Option<QuestionType>,
    showInTable: Option<bool>,
    orderIndex: Option<int>)

  /** A tag suggestion as the tag search returns it. */
  datatype TagRow = TagRow(id: Id, name: string)

  /** Why a local operation or a submit was refused (each is a toast in the page). */
  datatype EditError =
    | TooManyTags
    | TooManyOfType(questionType: QuestionType)
    | NoDropTarget
    | TitleRequired
    | TopicRequired

  // ---------------------------------------------------------------------------------------
  // Tags

  /** `addTag(name)`: refused once five tags exist; otherwise `name` is appended unless it is
      already there. A success also clears the tag input and the suggestions. */
  function AddTag(tags: seq<string>, name: string): (r: Result<seq<string>, EditError>)
    ensures r.Failure? <==> |tags| >= MaxTags
    ensures r.Failure? ==> r.error == TooManyTags
    ensures r.Success? ==> name in r.value && |r.value| <= MaxTags
    ensures r.Success? && name in tags ==> r.value == tags
    ensures r.Success? && name !in tags ==> r.value == tags + [name]
  {
    if |tags| >= MaxTags then Failure(TooManyTags)
    else if name in tags then Success(tags)
    else Success(tags + [name])
  }

  /** `removeTag(name)`: every occurrence of `name` goes; the other tags keep their order. */
  function RemoveTag(tags: seq<string>, name: string): (r: seq<string>)
    ensures |r| <= |tags|
    ensures name !in r
    ensures forall i :: 0 <= i < |r| ==> r[i] in tags
    ensures forall i :: 0 <= i < |tags| && tags[i] != name ==> tags[i] in r
    ensures forall x :: x != name ==> multiset(r)[x] == multiset(tags)[x]
    ensures name !in tags ==> r == tags
  {
    var r := Filter(tags, IsNot(name));
    assert name !in tags ==> r == tags by {
      if name !in tags { FilterKeepsAll(tags, IsNot(name)); }
    }
    assert forall x :: x != name ==> multiset(r)[x] == multiset(tags)[x] by {
      forall x | x != name ensures multiset(r)[x] == multiset(tags)[x] {
        FilterMultiplicity(tags, IsNot(name), x);
      }
    }
    r
  }

  /** Removal distributes over concatenation, so the remaining tags keep their order. */
  lemma RemoveTagKeepsOrder(a: seq<string>, b: seq<string>, name: string)
    ensures RemoveTag(a + b, name) == RemoveTag(a, name) + RemoveTag(b, name)
  {
    FilterAppend(a, b, IsNot(name));
  }

  /** Adding a new tag and removing it again gives back the original list. */
  lemma AddTagThenRemove(tags: seq<string>, name: string)
    requires |tags| < MaxTags && name !in tags
    ensures RemoveTag(AddTag(tags, name).value, name) == tags
  {
    FilterAppend(tags, [name], IsNot(name));
    FilterKeepsAll(tags, IsNot(name));
    FilterSingleton(name, IsNot(name));
  }

  /** The tag list of a valid editor: within the cap and without duplicates. */
  ghost predicate TagsValid(tags: seq<string>) {
    |tags| <= MaxTags && Distinct(tags)
  }

  /** `addTag` keeps the tag list within the cap and free of duplicates. */
  lemma AddTagKeepsTagsValid(tags: seq<string>, name: string)
    requires TagsValid(tags)
    ensures AddTag(tags, name).Success? ==> TagsValid(AddTag(tags, name).value)
  {
  }

  /** `removeTag` keeps the tag list within the cap and free of duplicates. */
  lemma RemoveTagKeepsTagsValid(tags: seq<string>, name: string)
    requires TagsValid(tags)
    ensures TagsValid(RemoveTag(tags, name))
  {
    FilterKeepsDistinct(tags, IsNot(name));
  }

  // ---------------------------------------------------------------------------------------
  // Questions

  function OfType(t: QuestionType): Question -> bool {
    (q: Question) => q.questionType == t
  }

  /** `questions.filter(q => q.questionType === type).length`. */
  function CountOfType(qs: seq<Question>, t: QuestionType): nat {
    |Filter(qs, OfType(t))|
  }

  /** Appending one question adds one to the count of its own type and nothing to the others. */
  lemma CountOfTypeAppend(qs: seq<Question>, q: Question, t: QuestionType)
    ensures CountOfType(qs + [q], t) == CountOfType(qs, t) + (if q.questionType == t then 1 else 0)
  {
    FilterAppend(qs, [q], OfType(t));
    FilterSingleton(q, OfType(t));
  }

  /** Every type occurs at most four times. */
  ghost predicate TypeCapsHold(qs: seq<Question>) {
    forall t: QuestionType :: CountOfType(qs, t) <= MaxQuestionsPerType
  }

  /** The question `addQuestion` creates: blank, hidden from the results table, numbered
      after the existing ones. */
  function NewQuestion(id: Id, t: QuestionType, orderIndex: nat): Question {
    Question(id, "", "", t, false, orderIndex)
  }

  /** `addQuestion(type)` with the fresh id `id`. The Create page refuses a fifth question of
      one type; the Edit page always accepts. An accepted call appends exactly one question. */
  function AddQuestion(variant: Variant, qs: seq<Question>, t: QuestionType, id: Id): (r: Result<seq<Question>, EditError>)
    ensures r.Failure? <==> variant == Create && CountOfType(qs, t) >= MaxQuestionsPerType
    ensures r.Failure? ==> r.error == TooManyOfType(t)
    ensures r.Success? ==> |r.value| == |qs| + 1 && r.value[..|qs|] == qs
    ensures r.Success? ==>
      var q := r.value[|qs|];
      q.id == id && q.questionType == t && q.title == "" && q.description == ""
      && !q.showInTable && q.orderIndex == |qs|
  {
    if variant == Create && CountOfType(qs, t) >= MaxQuestionsPerType then Failure(TooManyOfType(t))
    else
      var r := qs + [NewQuestion(id, t, |qs|)];
      assert r[..|qs|] == qs;
      Success(r)
  }

  /** On the Edit page `addQuestion` never refuses. */
  lemma EditAddQuestionAlwaysAccepts(qs: seq<Question>, t: QuestionType, id: Id)
    ensures AddQuestion(Edit, qs, t, id).Success?
  {
  }

  /** On the Create page `addQuestion` keeps every type at four questions or fewer. */
  lemma CreateAddQuestionKeepsTypeCaps(qs: seq<Question>, t: QuestionType, id: Id)
    requires TypeCapsHold(qs)
    ensures AddQuestion(Create, qs, t, id).Success? ==> TypeCapsHold(AddQuestion(Create, qs, t, id).value)
  {
    if AddQuestion(Create, qs, t, id).Success? {
      forall u: QuestionType ensures CountOfType(qs + [NewQuestion(id, t, |qs|)], u) <= MaxQuestionsPerType {
        CountOfTypeAppend(qs, NewQuestion(id, t, |qs|), u);
      }
    }
  }

  /** `{ ...q, ...updates }`: the fields the patch carries overwrite those of `q`. */
  function ApplyPatch(q: Question, p: QuestionPatch): Question {
    Question(
      p.id.GetOr(q.id),
      p.title.GetOr(q.title),
      p.description.GetOr(q.description),
      p.questionType.GetOr(q.questionType),
      p.showInTable.GetOr(q.showInTable),
      p.orderIndex.GetOr(q.orderIndex))
  }

  /** `updateQuestion(id, updates)`: the questions with that id are patched, every other
      question is left exactly as it was, and the list keeps its length and order. */
  function UpdateQuestion(qs: seq<Question>, id: Id, p: QuestionPatch): (r: seq<Question>)
    ensures |r| == |qs|
    ensures forall i :: 0 <= i < |qs| && qs[i].id != id ==> r[i] == qs[i]
    ensures forall i :: 0 <= i < |qs| && qs[i].id == id ==> r[i] == ApplyPatch(qs[i], p)
  {
    seq(|qs|, i requires 0 <= i < |qs| => if qs[i].id == id then ApplyPatch(qs[i], p) else qs[i])
  }

  /** A patch that keeps the id can be applied twice with the effect of once. */
  lemma UpdateQuestionIdempotent(qs: seq<Question>, id: Id, p: QuestionPatch)
    requires p.id.None? || p.id == Some(id)
    ensures UpdateQuestion(UpdateQuestion(qs, id, p), id, p) == UpdateQuestion(qs, id, p)
  {
  }

  /** A patch that keeps the question type keeps every type count. */
  lemma UpdateQuestionKeepsTypeCounts(qs: seq<Question>, id: Id, p: QuestionPatch, t: QuestionType)
    requires p.questionType.None?
    ensures CountOfType(UpdateQuestion(qs, id, p), t) == CountOfType(qs, t)
  {
    FilterLengthPointwise(UpdateQuestion(qs, id, p), OfType(t), qs, OfType(t));
  }

  function HasId(id: Id): Question -> bool {
    (q: Question) => q.id == id
  }

  function NotId(id: Id): Question -> bool {
    (q: Question) => q.id != id
  }

  /** The ids of the questions, in order. */
  function Ids(qs: seq<Question>): (r: seq<Id>)
    ensures |r| == |qs| && forall i :: 0 <= i < |qs| ==> r[i] == qs[i].id
  {
    seq(|qs|, i requires 0 <= i < |qs| => qs[i].id)
  }

  /** `removeQuestion(id)`: the questions with that id go, the others stay as they were, with
      their old `orderIndex` (no renumbering). */
  function RemoveQuestion(qs: seq<Question>, id: Id): (r: seq<Question>)
    ensures |r| <= |qs|
    ensures forall i :: 0 <= i < |r| ==> r[i] in qs && r[i].id != id
    ensures forall i :: 0 <= i < |qs| && qs[i].id != id ==> qs[i] in r
  {
    Filter(qs, NotId(id))
  }

  /** Removal splits over concatenation, so the survivors keep their relative order. */
  lemma RemoveQuestionKeepsOrder(a: seq<Question>, b: seq<Question>, id: Id)
    ensures RemoveQuestion(a + b, id) == RemoveQuestion(a, id) + RemoveQuestion(b, id)
  {
    FilterAppend(a, b, NotId(id));
  }

  /** Removing a question just added with a fresh id gives back the list before the add. */
  lemma AddQuestionThenRemove(variant: Variant, qs: seq<Question>, t: QuestionType, id: Id)
    requires id !in Ids(qs)
    requires AddQuestion(variant, qs, t, id).Success?
    ensures RemoveQuestion(AddQuestion(variant, qs, t, id).value, id) == qs
  {
    var q := NewQuestion(id, t, |qs|);
    assert AddQuestion(variant, qs, t, id).value == qs + [q];
    FilterAppend(qs, [q], NotId(id));
    forall i | 0 <= i < |qs| ensures NotId(id)(qs[i]) {
      assert Ids(qs)[i] == qs[i].id;
    }
    FilterKeepsAll(qs, NotId(id));
    FilterSingleton(q, NotId(id));
  }

  /** Removing questions never raises a type count. */
  lemma RemoveQuestionKeepsTypeCaps(qs: seq<Question>, id: Id)
    requires TypeCapsHold(qs)
    ensures TypeCapsHold(RemoveQuestion(qs, id))
  {
    forall t: QuestionType ensures CountOfType(RemoveQuestion(qs, id), t) <= CountOfType(qs, t) {
      RemoveShortensCount(qs, id, t);
    }
  }

  lemma {:induction false} RemoveShortensCount(qs: seq<Question>, id: Id, t: QuestionType)
    ensures |Filter(Filter(qs, NotId(id)), OfType(t))| <= |Filter(qs, OfType(t))|
    decreases |qs|
  {
    if qs != [] {
      RemoveShortensCount(qs[1..], id, t);
      var rest := Filter(qs[1..], NotId(id));
      if NotId(id)(qs[0]) {
        assert Filter(qs, NotId(id)) == [qs[0]] + rest;
        assert ([qs[0]] + rest)[1..] == rest;
      }
    }
  }

  /** A removal followed by an add can leave two questions with the same `orderIndex`: the
      add numbers the new question by the list length, and the removal did not close the gap. */
  lemma RemoveThenAddCanRepeatOrderIndex()
    ensures
      var qs := [NewQuestion("a", SingleLine, 0), NewQuestion("b", SingleLine, 1)];
      var r := AddQuestion(Create, RemoveQuestion(qs, "a"), SingleLine, "c");
      r.Success? && |r.value| == 2 && r.value[0].orderIndex == r.value[1].orderIndex == 1
  {
    var qs := [NewQuestion("a", SingleLine, 0), NewQuestion("b", SingleLine, 1)];
    assert qs == [qs[0]] + [qs[1]];
    FilterAppend([qs[0]], [qs[1]], NotId("a"));
    FilterSingleton(qs[0], NotId("a"));
    FilterSingleton(qs[1], NotId("a"));
    assert RemoveQuestion(qs, "a") == [qs[1]];
  }

  // ---------------------------------------------------------------------------------------
  // Drag reordering

  /** `.map((item, index) => ({ ...item, orderIndex: index }))`. */
  function Renumber(qs: seq<Question>): (r: seq<Question>)
    ensures |r| == |qs|
    ensures forall i :: 0 <= i < |qs| ==> r[i] == qs[i].(orderIndex := i)
  {
    seq(|qs|, i requires 0 <= i < |qs| => qs[i].(orderIndex := i))
  }

  /** Every question's `orderIndex` is its position in the list. */
  ghost predicate Numbered(qs: seq<Question>) {
    forall i :: 0 <= i < |qs| ==> qs[i].orderIndex == i
  }

  /** The questions with their numbering erased, to compare lists regardless of `orderIndex`. */
  function Unnumbered(qs: seq<Question>): (r: seq<Question>)
    ensures |r| == |qs| && forall i :: 0 <= i < |qs| ==> r[i] == qs[i].(orderIndex := 0)
  {
    seq(|qs|, i requires 0 <= i < |qs| => qs[i].(orderIndex := 0))
  }

  /** Erasing the numbering commutes with moving an element. */
  lemma UnnumberedArrayMove(qs: seq<Question>, from: nat, to: nat)
    requires from < |qs| && to < |qs|
    ensures Unnumbered(ArrayMove(qs, from, to)) == ArrayMove(Unnumbered(qs), from, to)
  {
    forall i | 0 <= i < |qs|
      ensures Unnumbered(ArrayMove(qs, from, to))[i] == ArrayMove(Unnumbered(qs), from, to)[i]
    {
      ArrayMoveAt(qs, from, to, i);
      ArrayMoveAt(Unnumbered(qs), from, to, i);
    }
  }

  /** A listed id is found, so `findIndex` gives a real index. */
  lemma FoundIndex(qs: seq<Question>, id: Id)
    requires id in Ids(qs)
    ensures 0 <= FindIndex(qs, HasId(id)) < |qs|
  {
    var k :| 0 <= k < |qs| && Ids(qs)[k] == id;
    assert HasId(id)(qs[k]);
  }

  /** Moving one question and renumbering gives a list numbered by position that holds the
      same questions, with the moved one at its target. */
  lemma MoveAndRenumber(qs: seq<Question>, from: nat, to: nat)
    requires from < |qs| && to < |qs|
    ensures
      var r := Renumber(ArrayMove(qs, from, to));
      && |r| == |qs|
      && Numbered(r)
      && multiset(Unnumbered(r)) == multiset(Unnumbered(qs))
      && r[to] == qs[from].(orderIndex := to)
  {
    var moved := ArrayMove(qs, from, to);
    var r := Renumber(moved);
    assert Unnumbered(r) == Unnumbered(moved);
    UnnumberedArrayMove(qs, from, to);
  }

  /** `handleDragEnd({ active, over })`. Dropping a question on itself changes nothing.
      Otherwise the dragged question is moved to the position of the one it was dropped on,
      and all questions are renumbered by position. `over` is `null` when the question is not
      dropped on any item; the handler then throws reading `over.id` and the list is kept.
      The drag library reports only ids of listed questions. */
  function DragEnd(qs: seq<Question>, active: Id, over: Option<Id>): (r: Result<seq<Question>, EditError>)
    requires active in Ids(qs)
    requires over.Some? ==> over.value in Ids(qs)
    ensures r.Failure? <==> over.None?
    ensures r.Failure? ==> r.error == NoDropTarget
    ensures over == Some(active) ==> r == Success(qs)
    ensures r.Success? && over != Some(active) ==>
      var from := FindIndex(qs, HasId(active));
      var to := FindIndex(qs, HasId(over.value));
      && 0 <= from < |qs| && 0 <= to < |qs|
      && |r.value| == |qs|
      && Numbered(r.value)
      && multiset(Unnumbered(r.value)) == multiset(Unnumbered(qs))
      && r.value[to] == qs[from].(orderIndex := to)
  {
    if over.None? then Failure(NoDropTarget)
    else if active == over.value then Success(qs)
    else
      var from := FindIndex(qs, HasId(active));
      var to := FindIndex(qs, HasId(over.value));
      FoundIndex(qs, active);
      FoundIndex(qs, over.value);
      MoveAndRenumber(qs, from, to);
      Success(Renumber(ArrayMove(qs, from, to)))
  }

  /** Moving one element keeps every type count. */
  lemma ArrayMoveKeepsCount(qs: seq<Question>, from: nat, to: nat, t: QuestionType)
    requires from < |qs| && to < |qs|
    ensures CountOfType(ArrayMove(qs, from, to), t) == CountOfType(qs, t)
  {
    var x := qs[from];
    var rest := RemoveAt(qs, from);
    assert qs == qs[..from] + [x] + qs[from + 1..];
    FilterAppend(qs[..from] + [x], qs[from + 1..], OfType(t));
    FilterAppend(qs[..from], [x], OfType(t));
    FilterAppend(qs[..from], qs[from + 1..], OfType(t));
    assert rest[..to] + [x] + rest[to..] == ArrayMove(qs, from, to);
    assert rest == rest[..to] + rest[to..];
    FilterAppend(rest[..to] + [x], rest[to..], OfType(t));
    FilterAppend(rest[..to], [x], OfType(t));
    FilterAppend(rest[..to], rest[to..], OfType(t));
  }

  /** Reordering keeps every type count, so it keeps the Create page's caps. */
  lemma DragEndKeepsTypeCounts(qs: seq<Question>, active: Id, over: Option<Id>, t: QuestionType)
    requires active in Ids(qs)
    requires over.Some? ==> over.value in Ids(qs)
    requires DragEnd(qs, active, over).Success?
    ensures CountOfType(DragEnd(qs, active, over).value, t) == CountOfType(qs, t)
  {
    if active != over.value {
      var from := FindIndex(qs, HasId(active));
      var to := FindIndex(qs, HasId(over.value));
      FoundIndex(qs, active);
      FoundIndex(qs, over.value);
      var moved := ArrayMove(qs, from, to);
      FilterLengthPointwise(Renumber(moved), OfType(t), moved, OfType(t));
      ArrayMoveKeepsCount(qs, from, to, t);
    }
  }

  // ---------------------------------------------------------------------------------------
  // Submit validation

  /** The checks `handleSubmit` makes before any backend work, in their order: the trimmed
      title must be non-empty, then a topic must be chosen. `None` lets the submit go on. */
  function ValidateSubmit(title: string, topic: string): (r: Option<EditError>)
    ensures r.None? <==> !IsBlank(title) && topic != ""
    ensures r == Some(TitleRequired) <==> forall i :: 0 <= i < |title| ==> IsWhitespace(title[i])
    ensures r == Some(TopicRequired) <==> !IsBlank(title) && topic == ""
  {
    BlankIffAllWhitespace(title);
    if IsBlank(title) then Some(TitleRequired)
    else if topic == "" then Some(TopicRequired)
    else None
  }

  // ---------------------------------------------------------------------------------------
  // Loading a template (Edit page)

  /** A question as the backend returns it; `description` may be `null`. */
  datatype QuestionRow = QuestionRow(
    id: Id,
    title: string,
    description: Option<string>,
    questionType: QuestionType,
    showInTable: bool,
    orderIndex: int)

  /** The tag a `template_tags` link row embeds through `tags(name)`. */
  datatype LinkedTag = LinkedTag(name: string)

  /** One `template_tags` link row of a template. */
  datatype TemplateTagRow = TemplateTagRow(tags: LinkedTag)

  /** A template with its embedded questions and its `template_tags(tags(name))` links. */
  datatype TemplateRecord = TemplateRecord(
    title: string,
    description: Option<string>,
    imageUrl: Option<string>,
    isPublic: bool,
    topicId: Option<Id>,
    questions: seq<QuestionRow>,
    templateTags: seq<TemplateTagRow>)

  /** The tag extraction of `loadTemplate`: the linked tag's name for each link row, in the
      order returned. */
  function LinkedTagNames(links: seq<TemplateTagRow>): (r: seq<string>)
    ensures |r| == |links|
    ensures forall i :: 0 <= i < |links| ==> r[i] == links[i].tags.name
  {
    seq(|links|, i requires 0 <= i < |links| => links[i].tags.name)
  }

  function LoadQuestion(q: QuestionRow): Question {
    Question(q.id, q.title, OrEmpty(q.description), q.questionType, q.showInTable, q.orderIndex)
  }

  /** The loaded-question transform: one question per row, in the order returned, with a
      null description turned into the empty string and every other field copied. */
  function LoadQuestions(rows: seq<QuestionRow>): (r: seq<Question>)
    ensures |r| == |rows|
    ensures forall i :: 0 <= i < |rows| ==>
      && r[i].id == rows[i].id && r[i].title == rows[i].title
      && r[i].questionType == rows[i].questionType && r[i].showInTable == rows[i].showInTable
      && r[i].orderIndex == rows[i].orderIndex
      && (rows[i].description.None? ==> r[i].description == "")
      && (rows[i].description.Some? ==> r[i].description == rows[i].description.value)
  {
    seq(|rows|, i requires 0 <= i < |rows| => LoadQuestion(rows[i]))
  }
}
