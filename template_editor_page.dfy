/** The component state of the template editor pages, `CreateTemplate` and `EditTemplate`. */
module TemplateEditorPage {
  import opened Common
  import opened Text
  import opened TemplateEditor


  /** The component state of one editor page. Its fields are the page's `useState` variables;
      each method is one event handler and changes only the fields its setters touch. */
  class Editor {
    const variant: Variant
    var title: string
    var description: string
    var imageUrl: string
    var isPublic: bool
    var selectedTopic: Id
    var tags: seq<string>
    var tagInput: string
    var suggestedTags: seq<TagRow>
    var questions: seq<Question>
    var loading: bool

    /** What the Create page guarantees about its own state: tags within the cap and distinct,
        and every question type at most four times. The Edit page loads whatever the backend
        holds, so nothing is promised there. */
    ghost predicate Valid()
      reads this
    {
      variant == Create ==> TagsValid(tags) && TypeCapsHold(questions)
    }

    /** The initial state: everything empty, the template public, and the Edit page loading. */
    constructor (variant: Variant)
      ensures Valid()
      ensures this.variant == variant
      ensures title == "" && description == "" && imageUrl == "" && isPublic
      ensures selectedTopic == "" && tags == [] && tagInput == "" && suggestedTags == []
      ensures questions == [] && loading == (variant == Edit)
    {
      this.variant := variant;
      title, description, imageUrl, isPublic := "", "", "", true;
      selectedTopic, tags, tagInput, suggestedTags := "", [], "", [];
      questions, loading := [], variant == Edit;
      new;
      assert forall t: QuestionType :: CountOfType([], t) == 0;
    }

    /** `loadTemplate` on the Edit page. `None` is a failed load: the page navigates back to
        the template list. Either way loading ends. A null `topic_id` is kept as `""`, which
        the submit check treats the same way (both are falsy). */
    method LoadTemplate(response: Option<TemplateRecord>) returns (leave: bool)
      requires variant == Edit
      modifies this
      ensures leave <==> response.None?
      ensures !loading
      ensures response.None? ==>
        && title == old(title) && description == old(description) && imageUrl == old(imageUrl)
        && isPublic == old(isPublic) && selectedTopic == old(selectedTopic)
        && questions == old(questions) && tags == old(tags)
      ensures response.Some? ==>
        var t := response.value;
        && title == t.title && description == OrEmpty(t.description) && imageUrl == OrEmpty(t.imageUrl)
        && isPublic == t.isPublic && selectedTopic == OrEmpty(t.topicId)
        && questions == LoadQuestions(t.questions) && tags == LinkedTagNames(t.templateTags)
      ensures tagInput == old(tagInput) && suggestedTags == old(suggestedTags)
    {
      leave := response.None?;
      if response.Some? {
        var t := response.value;
        title := t.title;
        description := OrEmpty(t.description);
        imageUrl := OrEmpty(t.imageUrl);
        isPublic := t.isPublic;
        selectedTopic := OrEmpty(t.topicId);
        questions := LoadQuestions(t.questions);
        tags := LinkedTagNames(t.templateTags);
      }
      loading := false;
    }

    /** `handleTagSearch(input)`. Blank input clears the suggestions without a query; otherwise
        `response` is what the tag query returned (`data || []` on success, nothing on error). */
    method TagSearch(input: string, response: Response<seq<TagRow>>)
      modifies this`suggestedTags
      ensures IsBlank(input) ==> suggestedTags == []
      ensures !IsBlank(input) && response.Ok? ==> suggestedTags == response.data.GetOr([])
      ensures !IsBlank(input) && response.Failed? ==> suggestedTags == old(suggestedTags)
    {
      if IsBlank(input) {
        suggestedTags := [];
      } else if response.Ok? {
        suggestedTags := response.data.GetOr([]);
      }
    }

    /** `addTag(name)`: refused with an error at the cap (input and suggestions kept);
        otherwise the tags become `AddTag(tags, name)` and the input and suggestions clear. */
    method AddTag(name: string) returns (err: Option<EditError>)
      modifies this`tags, this`tagInput, this`suggestedTags
      ensures old(Valid()) ==> Valid()
      ensures err.Some? <==> old(|tags|) >= MaxTags
      ensures err.Some? ==> err.value == TooManyTags && unchanged(this)
      ensures err.None? ==>
        tags == TemplateEditor.AddTag(old(tags), name).value && tagInput == "" && suggestedTags == []
    {
      var r := TemplateEditor.AddTag(tags, name);
      if r.Failure? {
        err := Some(r.error);
      } else {
        if variant == Create && TagsValid(tags) { AddTagKeepsTagsValid(tags, name); }
        err := None;
        tags, tagInput, suggestedTags := r.value, "", [];
      }
    }

    /** The tag input's `onChange`: the input takes the typed value, and `handleTagSearch`
        runs on it, with `response` standing for the tag query's answer. */
    method EditTagInput(value: string, response: Response<seq<TagRow>>)
      modifies this`tagInput, this`suggestedTags
      ensures old(Valid()) ==> Valid()
      ensures tagInput == value
      ensures IsBlank(value) ==> suggestedTags == []
      ensures !IsBlank(value) && response.Ok? ==> suggestedTags == response.data.GetOr([])
      ensures !IsBlank(value) && response.Failed? ==> suggestedTags == old(suggestedTags)
    {
      tagInput := value;
      TagSearch(value, response);
    }

    /** Enter in the tag input: a blank input does nothing; otherwise the trimmed input goes
        through `addTag`, so the tag stored is never blank and never padded with whitespace. */
    method EnterTagInput() returns (err: Option<EditError>)
      modifies this`tags, this`tagInput, this`suggestedTags
      ensures old(Valid()) ==> Valid()
      ensures IsBlank(old(tagInput)) ==> err.None? && unchanged(this)
      ensures !IsBlank(old(tagInput)) ==> (err.Some? <==> old(|tags|) >= MaxTags)
      ensures err.Some? ==> err.value == TooManyTags && unchanged(this)
      ensures !IsBlank(old(tagInput)) && err.None? ==>
        && tags == TemplateEditor.AddTag(old(tags), Trim(old(tagInput))).value
        && tagInput == "" && suggestedTags == []
      ensures !IsBlank(old(tagInput)) && err.None? ==>
        var name := Trim(old(tagInput));
        && name in tags && !IsBlank(name)
        && !IsWhitespace(name[0]) && !IsWhitespace(name[|name| - 1])
    {
      if IsBlank(tagInput) {
        err := None;
      } else {
        var name := Trim(tagInput);
        TrimIdempotent(tagInput);
        err := AddTag(name);
      }
    }

    /** `removeTag(name)`. */
    method RemoveTag(name: string)
      modifies this`tags
      ensures old(Valid()) ==> Valid()
      ensures tags == TemplateEditor.RemoveTag(old(tags), name)
    {
      if variant == Create && TagsValid(tags) { RemoveTagKeepsTagsValid(tags, name); }
      tags := TemplateEditor.RemoveTag(tags, name);
    }

    /** `addQuestion(type)` with `id` standing for `crypto.randomUUID()`, fresh for the list. */
    method AddQuestion(t: QuestionType, id: Id) returns (err: Option<EditError>)
      requires id !in Ids(questions)
      modifies this`questions
      ensures old(Valid()) ==> Valid()
      ensures err.Some? <==> variant == Create && CountOfType(old(questions), t) >= MaxQuestionsPerType
      ensures err.Some? ==> err.value == TooManyOfType(t) && questions == old(questions)
      ensures err.None? ==> questions == TemplateEditor.AddQuestion(variant, old(questions), t, id).value
    {
      var r := TemplateEditor.AddQuestion(variant, questions, t, id);
      if r.Failure? {
        err := Some(r.error);
      } else {
        if variant == Create && TypeCapsHold(questions) { CreateAddQuestionKeepsTypeCaps(questions, t, id); }
        err := None;
        questions := r.value;
      }
    }

    /** `updateQuestion(id, updates)`. The page's own inputs only ever patch the title, the
        description and `showInTable`; a patch of the type could break the Create page's cap. */
    method UpdateQuestion(id: Id, p: QuestionPatch)
      modifies this`questions
      ensures p.questionType.None? ==> (old(Valid()) ==> Valid())
      ensures questions == TemplateEditor.UpdateQuestion(old(questions), id, p)
    {
      var r := TemplateEditor.UpdateQuestion(questions, id, p);
      if p.questionType.None? {
        forall u: QuestionType ensures CountOfType(r, u) == CountOfType(questions, u) {
          UpdateQuestionKeepsTypeCounts(questions, id, p, u);
        }
      }
      questions := r;
    }

    /** `removeQuestion(id)`. */
    method RemoveQuestion(id: Id)
      modifies this`questions
      ensures old(Valid()) ==> Valid()
      ensures questions == TemplateEditor.RemoveQuestion(old(questions), id)
    {
      if variant == Create && TypeCapsHold(questions) { RemoveQuestionKeepsTypeCaps(questions, id); }
      questions := TemplateEditor.RemoveQuestion(questions, id);
    }

    /** `handleDragEnd(event)`: a failed drop (no target) leaves the list. */
    method HandleDragEnd(active: Id, over: Option<Id>)
      requires active in Ids(questions)
      requires over.Some? ==> over.value in Ids(questions)
      modifies this`questions
      ensures old(Valid()) ==> Valid()
      ensures over.None? ==> questions == old(questions)
      ensures over.Some? ==> questions == DragEnd(old(questions), active, over).value
    {
      var r := DragEnd(questions, active, over);
      if r.Success? {
        forall u: QuestionType ensures CountOfType(r.value, u) == CountOfType(questions, u) {
          DragEndKeepsTypeCounts(questions, active, over, u);
        }
        questions := r.value;
      }
    }

    /** The title input's `onChange`. */
    method SetTitle(t: string)
      modifies this`title
      ensures title == t
    {
      title := t;
    }

    /** The topic select's `onChange`; `""` is the "Select a topic" option. */
    method SelectTopic(topic: Id)
      modifies this`selectedTopic
      ensures selectedTopic == topic
    {
      selectedTopic := topic;
    }

    /** The validation prefix of `handleSubmit`; it changes no state. */
    method Submit() returns (err: Option<EditError>)
      ensures err.None? <==> !IsBlank(title) && selectedTopic != ""
      ensures err == ValidateSubmit(title, selectedTopic)
    {
      err := ValidateSubmit(title, selectedTopic);
    }
  }
}
