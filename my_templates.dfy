/** The signed-in user's template list: the responses count attached to each template after
    loading, the delete-by-id after a confirmed deletion, and the empty state. */
module MyTemplates {
  import opened Common
  import opened Seqs

  /** The shape of the embedded `forms(count)` field of a template row, as JSON: absent,
      `null`, an object with an optional `count`, or an array of such objects. The backend
      embeds a one-to-many relation as an array, so a row arrives with `Rows([Some(n)])`. */
  datatype FormsField = Missing | Null | Object(count: Option<int>) | Rows(items: seq<Option<int>>)

  /** A template row as selected by `select('*, forms(count)')`. */
  datatype TemplateRow = TemplateRow(
    id: Id,
    title: string,
    description: string,
    createdAt: string,
    imageUrl: Option<string>,
    isPublic: bool,
    forms: FormsField)

  /** A displayed template: the row, and the `forms_count` shown as "n responses". */
  datatype TemplateCard = TemplateCard(row: TemplateRow, formsCount: int)

  /** `n || 0` for a count that may be missing. */
  function CountOrZero(c: Option<int>): (r: int)
    ensures c.Some? ==> r == c.value
    ensures c.None? ==> r == 0
  {
    c.GetOr(0)
  }

  /** `template.forms?.count || 0` exactly as written: only an object's own `count` is read;
      an array has no `count` property, so it yields 0. */
  function FormsCountAsWritten(f: FormsField): (r: int)
    ensures f.Object? && f.count.Some? ==> r == f.count.value
    ensures !(f.Object? && f.count.Some?) ==> r == 0
  {
    if f.Object? then CountOrZero(f.count) else 0
  }

  /** The count as intended: the object's `count`, or the `count` of the single aggregate
      row the backend embeds; 0 when there is none. */
  function FormsCount(f: FormsField): (r: int)
    ensures f.Object? ==> r == CountOrZero(f.count)
    ensures f.Rows? && |f.items| > 0 ==> r == CountOrZero(f.items[0])
    ensures (f.Missing? || f.Null? || f == Rows([])) ==> r == 0
  {
    match f
    case Object(c) => CountOrZero(c)
    case Rows(items) => if |items| > 0 then CountOrZero(items[0]) else 0
    case _ => 0
  }

  /** The shape the backend sends always shows 0 responses as written, whatever the count. */
  lemma AsWrittenIgnoresEmbeddedCount(n: int)
    requires n != 0
    ensures FormsCountAsWritten(Rows([Some(n)])) == 0
    ensures FormsCount(Rows([Some(n)])) == n
  {
  }

  /** The two readings agree on every shape except the array the backend sends. */
  lemma FormsCountAgreesOffRows(f: FormsField)
    requires !f.Rows?
    ensures FormsCount(f) == FormsCountAsWritten(f)
  {
  }

  /** The load transform, with the corrected count: one card per row, in the order returned. */
  function WithCounts(rows: seq<TemplateRow>): (r: seq<TemplateCard>)
    ensures |r| == |rows|
    ensures forall i :: 0 <= i < |rows| ==> r[i].row == rows[i] && r[i].formsCount == FormsCount(rows[i].forms)
  {
    seq(|rows|, i requires 0 <= i < |rows| => TemplateCard(rows[i], FormsCount(rows[i].forms)))
  }

  /** A row that carries no count at all is shown with 0 responses. */
  lemma MissingCountIsZero(rows: seq<TemplateRow>, i: nat)
    requires i < |rows| && (rows[i].forms.Missing? || rows[i].forms.Null?)
    ensures WithCounts(rows)[i].formsCount == 0
  {
  }

  function CardNotId(id: Id): TemplateCard -> bool {
    (t: TemplateCard) => t.row.id != id
  }

  /** `templates.filter(t => t.id !== id)`: the cards with that id go, the others stay in order. */
  function RemoveTemplate(templates: seq<TemplateCard>, id: Id): (r: seq<TemplateCard>)
    ensures |r| <= |templates|
    ensures forall i :: 0 <= i < |r| ==> r[i] in templates && r[i].row.id != id
    ensures forall i :: 0 <= i < |templates| && templates[i].row.id != id ==> templates[i] in r
  {
    Filter(templates, CardNotId(id))
  }

  /** Removal splits over concatenation, so the remaining cards keep their order. */
  lemma RemoveTemplateKeepsOrder(a: seq<TemplateCard>, b: seq<TemplateCard>, id: Id)
    ensures RemoveTemplate(a + b, id) == RemoveTemplate(a, id) + RemoveTemplate(b, id)
  {
    FilterAppend(a, b, CardNotId(id));
  }

  /** The state of the MyTemplates page. */
  class MyTemplatesPage {
    var templates: seq<TemplateCard>
    var loading: bool

    constructor ()
      ensures templates == [] && loading
    {
      templates, loading := [], true;
    }

    /** `loadTemplates`, given what the select returned: the cards are replaced on success
        (`data || []`), kept on error; loading ends either way. */
    method LoadTemplates(response: Response<seq<TemplateRow>>)
      modifies this
      ensures !loading
      ensures response.Ok? ==> templates == WithCounts(response.data.GetOr([]))
      ensures response.Failed? ==> templates == old(templates)
    {
      if response.Ok? {
        templates := WithCounts(response.data.GetOr([]));
      }
      loading := false;
    }

    /** `deleteTemplate(id)`: nothing happens unless the confirmation was accepted and the
        backend deleted the template. */
    method DeleteTemplate(id: Id, confirmed: bool, deleted: bool)
      modifies this`templates
      ensures confirmed && deleted ==> templates == RemoveTemplate(old(templates), id)
      ensures !(confirmed && deleted) ==> templates == old(templates)
    {
      if confirmed && deleted {
        templates := RemoveTemplate(templates, id);
      }
    }

    /** Whether the page shows its "No templates" empty state. While loading, the page shows
        only its spinner. */
    method EmptyStateShown() returns (shown: bool)
      ensures shown <==> !loading && templates == []
    {
      shown := !loading && |templates| == 0;
    }
  }
}
