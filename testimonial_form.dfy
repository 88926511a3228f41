/**
 * The admin testimonial editor: the load of a testimonial into the form,
 * the rating select, and the request it submits.
 */
module TestimonialForm {
  import opened Wrappers
  import opened JsText
  import opened Schema
  import opened Testimonials

  /** The editor's `formData`; the rating is held as the select's text value. */
  datatype TestimonialFormData = TestimonialFormData(
    clientName: string, clientRole: string, content: string, rating: string, featured: bool)

  const EmptyTestimonialForm: TestimonialFormData := TestimonialFormData("", "", "", "", false)

  /** The values the rating select offers: none, or one to five stars. */
  const RatingOptions: seq<string> := ["", "1", "2", "3", "4", "5"]

  /** `item.rating?.toString() || ''`. */
  function RatingText(rating: Option<int>): (r: string)
    ensures rating.None? ==> r == ""
    ensures rating.Some? ==> r == IntToString(rating.value)
  {
    if rating.Some? then IntToString(rating.value) else ""
  }

  /** The load effect: NULL role becomes `''`, the rating its decimal text. */
  function LoadTestimonial(item: Testimonial): (r: TestimonialFormData)
    ensures r.clientName == item.clientName && r.content == item.content && r.featured == item.featured
    ensures r.clientRole == (if item.clientRole.Some? then item.clientRole.value else "")
    ensures RatingValue(r.rating) == item.rating
  {
    RatingRoundTrip(item.rating);
    TestimonialFormData(item.clientName, if item.clientRole.Some? then item.clientRole.value else "",
                        item.content, RatingText(item.rating), item.featured)
  }

  /** `formData.rating ? parseInt(formData.rating) : undefined`; NaN is sent as null. */
  function RatingValue(text: string): (r: Option<int>)
    ensures text == "" ==> r == None
    ensures text != "" ==> r == ParseInt(text)
  {
    if text == "" then None else ParseInt(text)
  }

  /** Whatever option is selected, the submitted rating is absent or between 1 and 5. */
  lemma SelectableRatingsInRange(k: nat)
    requires k < |RatingOptions|
    ensures RatingValue(RatingOptions[k]) == if k == 0 then None else Some(k)
  {
    if k > 0 {
      assert IntToString(k) == [DigitChar(k)];
      assert RatingOptions[k] == [DigitChar(k)] by {
        if k == 1 {} else if k == 2 {} else if k == 3 {} else if k == 4 {} else {}
      }
      ParseIntOfToString(k);
    }
  }

  /** A stored rating survives its round trip through the form. */
  lemma RatingRoundTrip(rating: Option<int>)
    ensures RatingValue(RatingText(rating)) == rating
  {
    if rating.Some? {
      ParseIntOfToString(rating.value);
      assert |IntToString(rating.value)| > 0;
    }
  }

  datatype TestimonialField =
    | ClientNameField(clientName: string)
    | ClientRoleField(clientRole: string)
    | ContentField(content: string)
    | RatingField(rating: string)
    | FeaturedField(featured: bool)

  /** `handleInputChange(field, value)`. */
  function InputChanged(prev: TestimonialFormData, f: TestimonialField): (r: TestimonialFormData)
    ensures r.clientName == if f.ClientNameField? then f.clientName else prev.clientName
    ensures r.clientRole == if f.ClientRoleField? then f.clientRole else prev.clientRole
    ensures r.content == if f.ContentField? then f.content else prev.content
    ensures r.rating == if f.RatingField? then f.rating else prev.rating
    ensures r.featured == if f.FeaturedField? then f.featured else prev.featured
  {
    match f
    case ClientNameField(v) => prev.(clientName := v)
    case ClientRoleField(v) => prev.(clientRole := v)
    case ContentField(v) => prev.(content := v)
    case RatingField(v) => prev.(rating := v)
    case FeaturedField(v) => prev.(featured := v)
  }

  datatype TestimonialSubmission =
    | UpdateTestimonialWith(id: int, payload: TestimonialRequest)
    | CreateTestimonialWith(payload: TestimonialRequest)

  function TestimonialPayload(f: TestimonialFormData): TestimonialRequest {
    TestimonialRequest(f.clientName, NonEmpty(f.clientRole), f.content, RatingValue(f.rating), f.featured)
  }

  /** `handleSubmit`: the id is attached, and update used, only when editing. */
  function SubmitTestimonialForm(item: Option<Testimonial>, f: TestimonialFormData)
    : (r: TestimonialSubmission)
    ensures r.UpdateTestimonialWith? <==> item.Some?
    ensures r.UpdateTestimonialWith? ==> r.id == item.value.id
    ensures r.payload.clientName == f.clientName && r.payload.content == f.content
    ensures r.payload.featured == f.featured
    ensures r.payload.clientRole == NonEmpty(f.clientRole)
    ensures r.payload.rating == RatingValue(f.rating)
  {
    if item.Some? then UpdateTestimonialWith(item.value.id, TestimonialPayload(f))
    else CreateTestimonialWith(TestimonialPayload(f))
  }

  /**
   * Loading a testimonial and saving it unchanged sends its own fields,
   * with a NULL or empty role sent as absent.
   */
  lemma LoadThenSubmit(item: Testimonial)
    ensures SubmitTestimonialForm(Some(item), LoadTestimonial(item))
         == UpdateTestimonialWith(item.id, TestimonialRequest(
              item.clientName, if item.clientRole == Some("") then None else item.clientRole,
              item.content, item.rating, item.featured))
  {
    RatingRoundTrip(item.rating);
  }

  /** The editor component: the testimonial being edited (if any) and the form state. */
  class TestimonialEditor {
    const item: Option<Testimonial>
    var formData: TestimonialFormData

    constructor (item: Option<Testimonial>)
      ensures this.item == item
      ensures formData == if item.Some? then LoadTestimonial(item.value) else EmptyTestimonialForm
    {
      this.item := item;
      formData := if item.Some? then LoadTestimonial(item.value) else EmptyTestimonialForm;
    }

    method HandleInputChange(f: TestimonialField)
      modifies this
      ensures formData == InputChanged(old(formData), f)
    {
      formData := InputChanged(formData, f);
    }

    method HandleSubmit() returns (submission: TestimonialSubmission)
      ensures submission == SubmitTestimonialForm(item, formData)
    {
      var data := TestimonialPayload(formData);
      if item.Some? {
        submission := UpdateTestimonialWith(item.value.id, data);
      } else {
        submission := CreateTestimonialWith(data);
      }
    }
  }
}
