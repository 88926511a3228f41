/**
 * Contact submissions: the public form post (`POST /contact`) and the admin
 * paged listing with its total count (`GET /admin/contacts`).
 */
module Contacts {
  import opened Wrappers
  import opened Schema
  import opened Ordering

  /** The body of `POST /contact`; `eventDate` is the form's raw date text. */
  datatype SubmitContactParams = SubmitContactParams(
    name: string, email: string, phone: Option<string>, subject: Option<string>,
    message: string, serviceType: Option<string>, eventDate: Option<string>)

  datatype SubmitContactResponse = SubmitContactResponse(success: bool, message: string)

  const ThankYou: string := "Thank you for your inquiry! We'll get back to you soon."

  /**
   * `params.event_date ? new Date(params.event_date) : null`: an absent or
   * empty date is stored as NULL; any other text goes through the date
   * parser, which is a parameter here.
   */
  function EventDate(text: Option<string>, parseDate: string -> Timestamp): (r: Option<Timestamp>)
    ensures r.None? <==> text.None? || text.value == ""
    ensures r.Some? ==> r.value == parseDate(text.value)
  {
    if text.Some? && text.value != "" then Some(parseDate(text.value)) else None
  }

  /**
   * `submitContact`: appends one row with the fields as given (no email or
   * length validation) and always reports success.
   */
  method SubmitContact(db: Database, params: SubmitContactParams, now: Timestamp,
                       parseDate: string -> Timestamp)
    returns (resp: SubmitContactResponse)
    requires db.Valid()
    modifies db`contactSubmissions, db`nextContactId
    ensures db.Valid()
    ensures db.contactSubmissions == old(db.contactSubmissions) + [ContactSubmission(
      old(db.nextContactId), params.name, params.email, params.phone, params.subject, params.message,
      params.serviceType, EventDate(params.eventDate, parseDate), now)]
    ensures resp == SubmitContactResponse(true, ThankYou)
  {
    var eventDate := if params.eventDate.Some? && params.eventDate.value != ""
                     then Some(parseDate(params.eventDate.value)) else None;
    var id := db.nextContactId;
    db.contactSubmissions := db.contactSubmissions + [ContactSubmission(
      id, params.name, params.email, params.phone, params.subject, params.message,
      params.serviceType, eventDate, now)];
    db.nextContactId := id + 1;
    resp := SubmitContactResponse(true, ThankYou);
  }

  /** The query-string parameters of `GET /admin/contacts`. */
  datatype ListContactsParams = ListContactsParams(limit: Option<nat>, offset: Option<nat>)

  datatype ListContactsResponse = ListContactsResponse(submissions: seq<ContactSubmission>, total: int)

  /** `params.limit || 50`: an absent or zero limit becomes 50. */
  function PageSize(p: ListContactsParams): (r: nat)
    ensures r > 0
    ensures p.limit.Some? && p.limit.value != 0 ==> r == p.limit.value
    ensures p.limit.None? || p.limit.value == 0 ==> r == 50
  {
    if p.limit.Some? && p.limit.value != 0 then p.limit.value else 50
  }

  /** `params.offset || 0`. */
  function PageOffset(p: ListContactsParams): (r: nat)
    ensures p.offset.Some? ==> r == p.offset.value
    ensures p.offset.None? ==> r == 0
  {
    if p.offset.Some? && p.offset.value != 0 then p.offset.value else 0
  }

  /** `ORDER BY created_at DESC`. */
  predicate NewerFirst(a: ContactSubmission, b: ContactSubmission) {
    a.createdAt >= b.createdAt
  }

  lemma NewerFirstIsTotal()
    ensures TotalPreorder(NewerFirst)
  {
  }

  /** `totalResult?.count || 0`: a missing count row, or a zero count, is 0. */
  function Total(countRow: Option<int>): (r: int)
    ensures countRow.None? ==> r == 0
    ensures countRow.Some? ==> r == countRow.value
  {
    if countRow.Some? && countRow.value != 0 then countRow.value else 0
  }

  /**
   * `listContactSubmissions`: one page of the submissions, newest first,
   * and the row count of the whole table from a second query.
   */
  function ListContactSubmissions(rows: seq<ContactSubmission>, p: ListContactsParams)
    : (r: ListContactsResponse)
    ensures r.total == |rows|
    ensures |r.submissions| <= PageSize(p)
  {
    ListContactsResponse(Page(SortBy(rows, NewerFirst), PageOffset(p), PageSize(p)), Total(Some(|rows|)))
  }

  /**
   * The page is the slice `[offset, offset + limit)` of the newest-first
   * order: at most `limit` stored submissions, exactly `limit` when enough
   * rows follow the offset, the remaining ones on a short last page, and
   * none past the end.
   */
  lemma ContactPage(rows: seq<ContactSubmission>, p: ListContactsParams)
    ensures |ListContactSubmissions(rows, p).submissions| <= PageSize(p)
    ensures PageOffset(p) + PageSize(p) <= |rows| ==> |ListContactSubmissions(rows, p).submissions| == PageSize(p)
    ensures PageOffset(p) >= |rows| ==> ListContactSubmissions(rows, p).submissions == []
    ensures forall k :: 0 <= k < |ListContactSubmissions(rows, p).submissions|
              ==> ListContactSubmissions(rows, p).submissions[k] in rows
    ensures (PageOffset(p) < |rows| < PageOffset(p) + PageSize(p))
        ==> |ListContactSubmissions(rows, p).submissions| == |rows| - PageOffset(p)
    ensures forall k :: 0 <= k < |ListContactSubmissions(rows, p).submissions|
              ==> ListContactSubmissions(rows, p).submissions[k] == SortBy(rows, NewerFirst)[PageOffset(p) + k]
    ensures Sorted(ListContactSubmissions(rows, p).submissions, NewerFirst)
  {
    var sorted := SortBy(rows, NewerFirst);
    var page := Page(sorted, PageOffset(p), PageSize(p));
    NewerFirstIsTotal();
    SortBySorted(rows, NewerFirst);
    PageOfSorted(sorted, PageOffset(p), PageSize(p), NewerFirst);
    forall k | 0 <= k < |page| ensures page[k] in rows {
      assert page[k] in multiset(sorted);
    }
  }

  /** The total counts every stored submission, whatever the limit and offset. */
  lemma ContactTotal(rows: seq<ContactSubmission>, p: ListContactsParams)
    ensures ListContactSubmissions(rows, p).total == |rows|
  {
  }

  /** Two consecutive pages of the same size, together, are the page of twice the size. */
  lemma ConsecutivePages(rows: seq<ContactSubmission>, offset: nat, size: nat)
    requires size > 0
    ensures ListContactSubmissions(rows, ListContactsParams(Some(size), Some(offset))).submissions
          + ListContactSubmissions(rows, ListContactsParams(Some(size), Some(offset + size))).submissions
         == ListContactSubmissions(rows, ListContactsParams(Some(2 * size), Some(offset))).submissions
  {
    PageSplit(SortBy(rows, NewerFirst), offset, size, size);
  }
}
