/**
 * The admin portfolio editor: the load of a listed item into the form, the
 * field handlers (with the sort-order parse), and the request it submits.
 */
module PortfolioForm {
  import opened Wrappers
  import opened JsText
  import opened PortfolioItems

  /** The editor's `formData`; the category is held as the select's text value. */
  datatype PortfolioFormData = PortfolioFormData(
    title: string, description: string, imageUrl: string, thumbnailUrl: string,
    categoryId: string, featured: bool, sortOrder: int)

  const EmptyPortfolioForm: PortfolioFormData := PortfolioFormData("", "", "", "", "", false, 0)

  /** The load effect: NULL text becomes `''`, the category id its decimal text. */
  function LoadPortfolioItem(item: PortfolioEntry): (r: PortfolioFormData)
    ensures r.title == item.title && r.imageUrl == item.imageUrl
    ensures r.featured == item.featured && r.sortOrder == item.sortOrder
    ensures r.description == (if item.description.Some? then item.description.value else "")
    ensures r.thumbnailUrl == (if item.thumbnailUrl.Some? then item.thumbnailUrl.value else "")
    ensures ParseInt(r.categoryId) == Some(item.categoryId)
  {
    ParseIntOfToString(item.categoryId);
    PortfolioFormData(item.title, OrEmpty(item.description), item.imageUrl, OrEmpty(item.thumbnailUrl),
                      IntToString(item.categoryId), item.featured, item.sortOrder)
  }

  /** `parseInt(e.target.value) || 0`: text without a leading integer, and `0`, give 0. */
  function SortOrderInput(text: string): (r: int)
    ensures ParseInt(text).None? ==> r == 0
    ensures ParseInt(text).Some? ==> r == ParseInt(text).value
  {
    match ParseInt(text)
    case None => 0
    case Some(n) => if n != 0 then n else 0
  }

  /** Text with no digit at all is sort order 0. */
  lemma NonNumericSortOrderIsZero(text: string)
    requires forall i :: 0 <= i < |text| ==> !IsDigit(text[i])
    ensures SortOrderInput(text) == 0
  {
    ParseIntWithoutDigits(text);
  }

  /** A number shown in the field reads back as itself. */
  lemma SortOrderRoundTrip(n: int)
    ensures SortOrderInput(IntToString(n)) == n
  {
    ParseIntOfToString(n);
  }

  /** The fields `handleInputChange` can set. */
  datatype PortfolioField =
    | TitleField(title: string)
    | DescriptionField(description: string)
    | ImageUrlField(url: string)
    | ThumbnailUrlField(url: string)
    | CategoryField(categoryId: string)
    | FeaturedField(featured: bool)
    | SortOrderField(text: string)

  /** `handleInputChange(field, value)`; the sort-order input is parsed first. */
  function InputChanged(prev: PortfolioFormData, f: PortfolioField): (r: PortfolioFormData)
    ensures r.title == if f.TitleField? then f.title else prev.title
    ensures r.description == if f.DescriptionField? then f.description else prev.description
    ensures r.imageUrl == if f.ImageUrlField? then f.url else prev.imageUrl
    ensures r.thumbnailUrl == if f.ThumbnailUrlField? then f.url else prev.thumbnailUrl
    ensures r.categoryId == if f.CategoryField? then f.categoryId else prev.categoryId
    ensures r.featured == if f.FeaturedField? then f.featured else prev.featured
    ensures r.sortOrder == if f.SortOrderField? then SortOrderInput(f.text) else prev.sortOrder
  {
    match f
    case TitleField(v) => prev.(title := v)
    case DescriptionField(v) => prev.(description := v)
    case ImageUrlField(v) => prev.(imageUrl := v)
    case ThumbnailUrlField(v) => prev.(thumbnailUrl := v)
    case CategoryField(v) => prev.(categoryId := v)
    case FeaturedField(v) => prev.(featured := v)
    case SortOrderField(text) => prev.(sortOrder := SortOrderInput(text))
  }

  /**
   * The JSON the form sends. `parseInt` of an empty or non-numeric
   * category gives NaN, which is sent as null: `categoryId` is then absent.
   */
  datatype PortfolioPayload = PortfolioPayload(
    title: string, description: Option<string>, imageUrl: string, thumbnailUrl: Option<string>,
    categoryId: Option<int>, featured: bool, sortOrder: int)

  datatype PortfolioSubmission =
    | UpdateItem(id: int, payload: PortfolioPayload)
    | CreateItem(payload: PortfolioPayload)

  function PortfolioPayloadOf(f: PortfolioFormData): PortfolioPayload {
    PortfolioPayload(f.title, NonEmpty(f.description), f.imageUrl, NonEmpty(f.thumbnailUrl),
                     ParseInt(f.categoryId), f.featured, f.sortOrder)
  }

  /** `handleSubmit`: the item's id is attached, and update used, only when editing. */
  function SubmitPortfolioForm(item: Option<PortfolioEntry>, f: PortfolioFormData): (r: PortfolioSubmission)
    ensures r.UpdateItem? <==> item.Some?
    ensures r.UpdateItem? ==> r.id == item.value.id
    ensures r.payload.title == f.title && r.payload.imageUrl == f.imageUrl
    ensures r.payload.featured == f.featured && r.payload.sortOrder == f.sortOrder
    ensures r.payload.categoryId == ParseInt(f.categoryId)
    ensures r.payload.description == NonEmpty(f.description)
    ensures r.payload.thumbnailUrl == NonEmpty(f.thumbnailUrl)
  {
    if item.Some? then UpdateItem(item.value.id, PortfolioPayloadOf(f)) else CreateItem(PortfolioPayloadOf(f))
  }

  /**
   * Loading an item and saving it unchanged sends the item's own fields:
   * the category id survives its round trip through text, and a NULL (or
   * empty) description or thumbnail is sent as absent.
   */
  lemma LoadThenSubmit(item: PortfolioEntry)
    ensures SubmitPortfolioForm(Some(item), LoadPortfolioItem(item))
         == UpdateItem(item.id, PortfolioPayload(
              item.title, NullIfEmpty(item.description), item.imageUrl, NullIfEmpty(item.thumbnailUrl),
              Some(item.categoryId), item.featured, item.sortOrder))
  {
    ParseIntOfToString(item.categoryId);
  }

  /** A form with no category chosen sends no category id. */
  lemma NoCategoryNoId(item: Option<PortfolioEntry>, f: PortfolioFormData)
    requires f.categoryId == ""
    ensures SubmitPortfolioForm(item, f).payload.categoryId == None
  {
    ParseIntWithoutDigits(f.categoryId);
  }

  /** The editor component: the item being edited (if any) and the form state. */
  class PortfolioEditor {
    const item: Option<PortfolioEntry>
    var formData: PortfolioFormData

    constructor (item: Option<PortfolioEntry>)
      ensures this.item == item
      ensures formData == if item.Some? then LoadPortfolioItem(item.value) else EmptyPortfolioForm
    {
      this.item := item;
      formData := if item.Some? then LoadPortfolioItem(item.value) else EmptyPortfolioForm;
    }

    method HandleInputChange(f: PortfolioField)
      modifies this
      ensures formData == InputChanged(old(formData), f)
    {
      formData := InputChanged(formData, f);
    }

    method HandleSubmit() returns (submission: PortfolioSubmission)
      ensures submission == SubmitPortfolioForm(item, formData)
    {
      var data := PortfolioPayloadOf(formData);
      if item.Some? {
        submission := UpdateItem(item.value.id, data);
      } else {
        submission := CreateItem(data);
      }
    }
  }
}
