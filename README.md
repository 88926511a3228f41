# Photography portfolio — a verified model of the content store, the admin gate and the client state

The system is a photographer's portfolio site: an Encore backend serving
portfolio items, categories, testimonials, a blog and a contact form out of
one PostgreSQL database, and a React frontend with a public site and an admin
area. This project models the parts of it that carry logic, and proves what
they promise:

- **The content store** (`schema.dfy`). The `portfolio` database is a class
  with one `seq` of rows per table and one serial counter per table.
- **The handlers that write to it**. Insert, full-row update and hard delete
  for portfolio items, blog posts and testimonials, plus the contact-form
  append.
- **The list handlers.** The portfolio, blog and testimonial lists build
  their SQL one `query +=` at a time and push one parameter per `$n`
  placeholder. `sql_query.dfy` models this:
  - `Clause` is one appended piece of SQL;
  - `Run` is the meaning of a query over a table: its conditions bound to
    their parameters, its ORDER BY and its LIMIT.
- **The listing each handler promises.** Each is given as its own function.
  One lemma per handler proves that running the built query yields exactly
  that listing.
- **The contact paging and the category listing.**
- **The blog lookup by slug**, with its `NotFound` path.
- **The admin gate.** `auth` strips the first `"Bearer "` and compares the
  rest with the secret, and `login` echoes the password as the token. The
  client builds the Bearer header and trims the password before submitting.
- **The three admin editors.** This covers `generateSlug`, the load of a
  stored row into the form, the field handlers, and the request each form
  submits.
- **The image picker's validator and handlers.**
- **Four small state machines:**
  - the `useRetry` attempt loop;
  - the `useAuth` login state;
  - the set of expanded contact cards;
  - the hero carousel.

Where the source mutates state, the model does too. Tables and React state
are class fields, and handlers are methods with `modifies` clauses. Each
method is tied by its `ensures` to a function on values, and the lemmas
are stated about that function.

Outside inputs are parameters:
- "now" (`CURRENT_TIMESTAMP`, `new Date()`);
- date parsing;
- where PostgreSQL sorts a NULL `published_at`.

## Model

| member | source | states |
|---|---|---|
| PortfolioItems.JoinSound | backend/portfolio/list_portfolio.ts:38-39 | every joined row pairs a stored item with the stored category its `category_id` names, and carries that category's name and slug |
| PortfolioItems.JoinComplete | backend/portfolio/list_portfolio.ts:38-39 | every stored item whose `category_id` names a stored category appears in the join with that category |
| PortfolioItems.OrphanNotJoined | backend/portfolio/list_portfolio.ts:38-39 | an item whose `category_id` matches no category never appears in the join |
| PortfolioItems.PortfolioListingSound | backend/portfolio/list_portfolio.ts:38-56 | every listed entry is a joined row; with a category filter its slug equals it, and with `featured` truthy it is featured |
| PortfolioItems.PortfolioListingComplete | backend/portfolio/list_portfolio.ts:33-56 | without a truthy limit, every joined row passing the filters is listed |
| PortfolioItems.PortfolioListingSorted | backend/portfolio/list_portfolio.ts:58 | the listing is ordered by `sort_order` ascending, then `created_at` descending |
| PortfolioItems.PortfolioListingLimited | backend/portfolio/list_portfolio.ts:60-63 | a truthy limit bounds the length and keeps a prefix of the matches; 0 or absent keeps all of them |
| PortfolioItems.FeaturedFalseListsAll | backend/portfolio/list_portfolio.ts:52-56 | `featured=false` lists exactly what an absent `featured` lists, because the test is truthiness |
| PortfolioItems.PortfolioQueryIgnoresValues | backend/portfolio/list_portfolio.ts:46-63 | two requests that supply the same filters get the same SQL text; values go only into the parameters |
| PortfolioItems.PortfolioConditions | backend/portfolio/list_portfolio.ts:43-63 | one parameter per placeholder; the bound conditions are `c.slug = category` and `p.featured = true`, each present exactly when supplied; the bound LIMIT is the truthy limit |
| PortfolioItems.RunPortfolioQuery | backend/portfolio/list_portfolio.ts:33-66 | the engine running the built query with its parameters over the join returns exactly the specified listing |
| PortfolioItems.ListPortfolio | backend/portfolio/list_portfolio.ts:33-66 | the step-by-step builder produces that query and parameter list, with placeholders `$1..$n` in the order category, featured, limit, and returns the listing |
| Sql.ListQueryNumbered | backend/portfolio/list_portfolio.ts:43-63 | in any list query of this shape the placeholders are exactly `$1..$n`, in order, where n is the number of filters plus one for a limit |
| Sql.ListQueryBinds | backend/portfolio/list_blog.ts:38-53 | binding such a query: filter i is compared with parameter i and the LIMIT reads the parameter after the filters |
| Sql.EffectiveLimit | backend/portfolio/list_portfolio.ts:60 | a limit is applied exactly when it is present and non-zero |
| PortfolioItems.CreatePortfolioItem | backend/portfolio/create_portfolio_item.ts:23-32 | exactly one row is appended with the request's fields as given (category and sort order unchecked); the returned id is fresh and is the new row's id; existing rows are unchanged |
| PortfolioItems.UpdatedPortfolioItems | backend/portfolio/update_portfolio_item.ts:23-28 | the row with the id gets all seven columns from the request (absent description or thumbnail becomes NULL) and keeps id and `created_at`; other rows are unchanged; an unknown id changes nothing |
| PortfolioItems.UpdatePortfolioIdempotent | backend/portfolio/update_portfolio_item.ts:23-28 | sending the same update twice equals sending it once |
| PortfolioItems.UpdatePortfolioItem | backend/portfolio/update_portfolio_item.ts:23-33 | the table becomes the updated table and the success message is returned, also for an unknown id |
| PortfolioItems.WithoutPortfolioItem | backend/portfolio/delete_portfolio_item.ts:16 | each row without the id remains exactly as often as before and each row with it is gone; an unknown id changes nothing |
| PortfolioItems.DeletePortfolioKeepsOrder | backend/portfolio/delete_portfolio_item.ts:16 | the surviving rows keep their order: deleting from two runs of rows is deleting from each, and a single row survives exactly when its id differs |
| PortfolioItems.DeletePortfolioIdempotent | backend/portfolio/delete_portfolio_item.ts:16 | deleting twice equals deleting once |
| PortfolioItems.DeletePortfolioItem | backend/portfolio/delete_portfolio_item.ts:16-20 | the table loses the rows with the id and the success message is returned |
| BlogPosts.BlogListingSound | backend/portfolio/list_blog.ts:31-45 | every listed post is a stored post, seen without its meta columns, and passes the `published` filter |
| BlogPosts.BlogListingExact | backend/portfolio/list_blog.ts:41-45 | without a truthy limit a post is listed exactly when it passes the filter, so `published=false` lists the drafts and nothing else |
| BlogPosts.BlogListingAll | backend/portfolio/list_blog.ts:31-36 | with no filter and no limit the listing is a reordering of the whole table |
| BlogPosts.BlogListingSorted | backend/portfolio/list_blog.ts:47 | the listing follows `published_at DESC, created_at DESC`, whichever side NULLs sort on |
| BlogPosts.BlogListingNewestFirst | backend/portfolio/list_blog.ts:47 | of two dated posts, the earlier-listed has the later date, and on equal dates the later `created_at` |
| BlogPosts.BlogListingLimited | backend/portfolio/list_blog.ts:49-52 | a truthy limit bounds the length and keeps a prefix; 0 or absent keeps every match |
| BlogPosts.BlogConditions | backend/portfolio/list_blog.ts:38-53 | one parameter per placeholder, numbered published then limit; the bound condition is `published = value` exactly when it is defined, including `false` |
| BlogPosts.RunBlogQuery | backend/portfolio/list_blog.ts:31-54 | the engine running the built query returns exactly the specified listing |
| BlogPosts.ListBlog | backend/portfolio/list_blog.ts:31-54 | the builder produces that query and parameter list, numbered `$1..$n`, and returns the listing |
| BlogPosts.FirstPublished | backend/portfolio/get_blog_post.ts:25-30 | the earliest stored post with the slug that is published, or none exactly when no such post exists |
| BlogPosts.GetBlogPost | backend/portfolio/get_blog_post.ts:25-36 | a found post is stored, published and has the requested slug; NotFound("blog post not found") exactly when no published post has the slug |
| BlogPosts.DraftNotFound | backend/portfolio/get_blog_post.ts:29-34 | a slug carried only by drafts, or by nothing, yields NotFound |
| BlogPosts.PublishedAt | backend/portfolio/create_blog_post.ts:25 | `published_at` is set, to now, exactly when the post is published |
| BlogPosts.CreateBlogPost | backend/portfolio/create_blog_post.ts:25-43 | exactly one row is appended with the request's fields unchecked; absent fields are NULL and `published_at` follows the rule; the returned id is fresh and is the new row's id; the other rows are unchanged |
| BlogPosts.CreatedPostIsFound | backend/portfolio/create_blog_post.ts:27-37 | after creating a published post its slug is found, and found as that post when no older published post has it |
| BlogPosts.CreatedDraftIsHidden | backend/portfolio/create_blog_post.ts:27-37 | creating a draft does not change what any lookup by its slug returns |
| BlogPosts.UpdatedBlogPosts | backend/portfolio/update_blog_post.ts:22-29 | the matched row gets the six request columns, `published_at` by the rule and `updated_at` = now; its meta fields, id and `created_at` are kept; other rows are unchanged; an unknown id changes nothing |
| BlogPosts.RepublishResetsDate | backend/portfolio/update_blog_post.ts:22-28 | updating an already-published post with `published` true resets `published_at` to now |
| BlogPosts.UpdateBlogIdempotent | backend/portfolio/update_blog_post.ts:24-29 | the same update at the same instant, twice, equals once |
| BlogPosts.UpdateBlogPost | backend/portfolio/update_blog_post.ts:22-35 | the table becomes the updated table and the success message is returned, also for an unknown id |
| BlogPosts.WithoutBlogPost | backend/portfolio/delete_blog_post.ts:16 | each row without the id remains exactly as often as before and each row with it is gone; an unknown id changes nothing |
| BlogPosts.DeleteBlogKeepsOrder | backend/portfolio/delete_blog_post.ts:16 | the surviving rows keep their order: deleting from two runs of rows is deleting from each, and a single row survives exactly when its id differs |
| BlogPosts.DeleteBlogIdempotent | backend/portfolio/delete_blog_post.ts:16 | deleting twice equals deleting once |
| BlogPosts.DeleteBlogPost | backend/portfolio/delete_blog_post.ts:16-20 | the table loses the rows with the id and the success message is returned |
| Testimonials.TestimonialListingExact | backend/portfolio/list_testimonials.ts:28-41 | listed testimonials are stored and pass the `featured` filter; without a truthy limit every such testimonial is listed |
| Testimonials.FeaturedFalseListsOthers | backend/portfolio/list_testimonials.ts:37-41 | `featured=false` is a real filter: it lists only non-featured testimonials |
| Testimonials.TestimonialListingOrdered | backend/portfolio/list_testimonials.ts:43 | featured testimonials come before the others, and within a group the newest comes first |
| Testimonials.TestimonialListingLimited | backend/portfolio/list_testimonials.ts:45-48 | a truthy limit bounds the length and keeps a prefix; 0 or absent keeps every match |
| Testimonials.TestimonialConditions | backend/portfolio/list_testimonials.ts:34-49 | one parameter per placeholder, numbered featured then limit; the bound condition is `featured = value` exactly when it is defined |
| Testimonials.RunTestimonialQuery | backend/portfolio/list_testimonials.ts:28-50 | the engine running the built query returns exactly the specified listing |
| Testimonials.ListTestimonials | backend/portfolio/list_testimonials.ts:28-50 | the builder produces that query and parameter list, numbered `$1..$n`, and returns the listing |
| Testimonials.CreateTestimonial | backend/portfolio/create_testimonial.ts:21-30 | exactly one row is appended with the fields as given (rating not range-checked, absent role or rating NULL); the returned id is fresh and is the new row's id |
| Testimonials.UpdatedTestimonials | backend/portfolio/update_testimonial.ts:21-25 | the matched row gets all five content columns (absent role or rating becomes NULL) and keeps id and `created_at`; other rows are unchanged; an unknown id changes nothing |
| Testimonials.UpdateTestimonialIdempotent | backend/portfolio/update_testimonial.ts:21-25 | the same update twice equals once |
| Testimonials.UpdateTestimonial | backend/portfolio/update_testimonial.ts:21-30 | the table becomes the updated table and the success message is returned, also for an unknown id |
| Testimonials.WithoutTestimonial | backend/portfolio/delete_testimonial.ts:16 | each row without the id remains exactly as often as before and each row with it is gone; an unknown id changes nothing |
| Testimonials.DeleteTestimonialKeepsOrder | backend/portfolio/delete_testimonial.ts:16 | the surviving rows keep their order: deleting from two runs of rows is deleting from each, and a single row survives exactly when its id differs |
| Testimonials.DeleteTestimonialIdempotent | backend/portfolio/delete_testimonial.ts:16 | deleting twice equals deleting once |
| Testimonials.DeleteTestimonial | backend/portfolio/delete_testimonial.ts:16-20 | the table loses the rows with the id and the success message is returned |
| Contacts.EventDate | backend/portfolio/submit_contact.ts:23 | an absent or empty event date is stored as NULL and any other text as its parse |
| Contacts.SubmitContact | backend/portfolio/submit_contact.ts:23-35 | exactly one row is appended with the fields as given (no validation, absent fields NULL), the others are unchanged, and the response is always success with the thank-you message |
| Contacts.PageSize | backend/portfolio/list_contact_submissions.ts:31 | the page size is the limit when it is non-zero and 50 when it is absent or 0 |
| Contacts.PageOffset | backend/portfolio/list_contact_submissions.ts:32 | the offset is the given one, or 0 when absent |
| Contacts.ListContactSubmissions | backend/portfolio/list_contact_submissions.ts:31-48 | the response's total is the number of stored submissions and its page holds at most `limit` of them |
| Contacts.ContactPage | backend/portfolio/list_contact_submissions.ts:34-39 | the page's k-th entry is the newest-first order's entry at `offset + k`; it holds exactly `limit` entries when enough follow, exactly the `|rows| - offset` remaining ones on a short last page, none past the end; every entry is stored and the page is sorted newest first |
| Contacts.ConsecutivePages | backend/portfolio/list_contact_submissions.ts:34-39 | two consecutive pages of size n concatenate to the page of size 2n at the first offset |
| Contacts.Total | backend/portfolio/list_contact_submissions.ts:47 | the total is the count row, or 0 when it is missing |
| Contacts.ContactTotal | backend/portfolio/list_contact_submissions.ts:41-48 | the total counts every stored submission whatever the limit and offset |
| Categories.ListCategories | backend/portfolio/list_categories.ts:20-25 | the listing has the same categories, with the same multiplicities, as the table: no filter and no limit |
| Categories.ListCategoriesPermutesAndSorts | backend/portfolio/list_categories.ts:20-25 | the listing is a permutation of the category table (every category, no filter, no limit) sorted by name |
| Auth.Authenticate | backend/auth/auth.ts:18-31 | no header, or nothing left after stripping, is "missing token"; it succeeds, as admin/admin, exactly when the stripped token is non-empty and equals the secret; any other token is "invalid token" |
| Auth.StripBearerPrefix | backend/auth/auth.ts:18 | a header starting with `"Bearer "` strips to exactly what follows |
| Auth.DoubledPrefixRejected | backend/auth/auth.ts:18-26 | only the first occurrence is removed: `"Bearer Bearer " + secret` is an invalid token |
| Auth.UnprefixedHeaderVerbatim | backend/auth/auth.ts:18-31 | a header without the prefix is compared verbatim |
| Auth.BearerHeader | frontend/hooks/useBackend.ts:7-13 | the client sends no header for an absent or empty token, else `"Bearer " + token` |
| Auth.BearerRoundTrip | frontend/hooks/useBackend.ts:7-13 | the gate sees exactly the client's token: it admits the request exactly when the token is non-empty and equals the secret |
| Auth.Login | backend/auth/login.ts:19-26 | a wrong password is an error with no token; the right one is returned as the token with "Login successful" |
| Auth.LoginTokenAuthenticates | backend/auth/login.ts:23-25 | the token a successful login returns, sent as a Bearer header, passes the gate (when the secret is non-empty) |
| Auth.SubmittedPassword | frontend/pages/AdminLoginPage.tsx:37-38 | the page submits the trimmed password, and nothing when the input is empty or whitespace only |
| JsText.Trim | frontend/pages/AdminLoginPage.tsx:37 | the result is the slice of the input after its leading white space, with only white space after it; it is empty exactly when the input is all white space, and otherwise starts and ends with a non-space |
| BlogForm.Collapse | frontend/components/admin/BlogForm.tsx:96 | the result has only `[a-z0-9-]` and no `--`, is empty exactly when the input is, and starts with the input's first character, or with `-` when that is a separator |
| BlogForm.CollapseAppend | frontend/components/admin/BlogForm.tsx:96 | text ending in a letter or digit is collapsed independently of what follows it |
| BlogForm.CollapseSeparatesWords | frontend/components/admin/BlogForm.tsx:96 | a non-empty run of separators between a letter or digit (or the start) and a letter or digit (or the end) becomes exactly one `-`, each side collapsing on its own |
| BlogForm.TrimDashesWellFormed | frontend/components/admin/BlogForm.tsx:97 | trimming one `-` at each end of collapsed text leaves no `-` at either end, and keeps the charset and the absence of `--` |
| BlogForm.GenerateSlug | frontend/components/admin/BlogForm.tsx:93-98 | the slug is over `[a-z0-9-]`, has no `--`, and neither starts nor ends with `-` |
| BlogForm.GenerateSlugJoinsWords | frontend/components/admin/BlogForm.tsx:93-98 | two words of `[a-z0-9]` with any non-empty run of other characters between them give the two words joined by a single `-` |
| BlogForm.GenerateSlugKeepsLetters | frontend/components/admin/BlogForm.tsx:94-96 | the slug's letters and digits are those of the lower-cased title, in order |
| BlogForm.GenerateSlugIdempotent | frontend/components/admin/BlogForm.tsx:93-98 | generating a slug from a slug changes nothing |
| BlogForm.TitleChanged | frontend/components/admin/BlogForm.tsx:100-107 | the title is replaced; a new post's slug is regenerated and an edited post's kept; `meta_title` follows the title on a new post or while empty; nothing else changes |
| BlogForm.NewPostSlugWellFormed | frontend/components/admin/BlogForm.tsx:100-107 | on a new post the slug field always holds a well-formed slug |
| BlogForm.NewPostLastTitleWins | frontend/components/admin/BlogForm.tsx:100-107 | on a new post only the last title typed matters |
| BlogForm.EditingMetaTitleLatches | frontend/components/admin/BlogForm.tsx:105 | when editing, an empty `meta_title` takes the first non-empty title typed and then stays |
| BlogForm.TypedMetaTitleKept | frontend/components/admin/BlogForm.tsx:105 | a meta title typed into its field survives later title changes while editing |
| BlogForm.LoadBlogPost | frontend/components/admin/BlogForm.tsx:37-51 | title, slug, content and the publish flag load as stored; a NULL excerpt or image loads as `''`; the meta fields load as `''` because the listing the post comes from has no meta columns |
| BlogForm.InputChanged | frontend/components/admin/BlogForm.tsx:131-133 | exactly the named field takes the value; every other field, and the title, stay as they were |
| BlogForm.SubmitBlogForm | frontend/components/admin/BlogForm.tsx:109-129 | with a loaded post the request is an update carrying its id, otherwise a create; title, slug, content and the publish flag are sent as typed, and each of excerpt, image URL and the three meta fields is sent as absent when empty and as typed otherwise |
| BlogForm.LoadThenSubmit | frontend/components/admin/BlogForm.tsx:37-51 | loading a post and saving it unchanged sends the post's own fields, with NULL or empty optionals absent and the meta fields absent |
| BlogForm.EditedMetaFieldsIgnored | backend/portfolio/update_blog_post.ts:24-29 | whatever meta fields the editor holds, an update keeps the stored ones |
| BlogForm.BlogEditor.HandleTitleChange | frontend/components/admin/BlogForm.tsx:100-107 | the form state becomes `TitleChanged` of the old state |
| BlogForm.BlogEditor.HandleInputChange | frontend/components/admin/BlogForm.tsx:131-133 | exactly the named field takes the value |
| BlogForm.BlogEditor.HandleSubmit | frontend/components/admin/BlogForm.tsx:109-129 | the request sent is `SubmitBlogForm` of the editor's item and form |
| PortfolioForm.SortOrderInput | frontend/components/admin/PortfolioForm.tsx:181 | the typed sort order is the parsed integer, or 0 when the text parses to nothing |
| PortfolioForm.NonNumericSortOrderIsZero | frontend/components/admin/PortfolioForm.tsx:181 | text without a digit gives sort order 0 |
| PortfolioForm.SortOrderRoundTrip | frontend/components/admin/PortfolioForm.tsx:181 | a number shown in the field reads back as itself |
| PortfolioForm.LoadPortfolioItem | frontend/components/admin/PortfolioForm.tsx:35-47 | the text fields, flag and sort order load as stored, a NULL description or thumbnail as `''`, and the category id as text that `parseInt` reads back as the id |
| PortfolioForm.InputChanged | frontend/components/admin/PortfolioForm.tsx:106-108 | exactly the named field takes the value, the sort order as `SortOrderInput` of its text; every other field stays |
| PortfolioForm.SubmitPortfolioForm | frontend/components/admin/PortfolioForm.tsx:89-104 | the id is attached, and update used, only when editing; title, image URL, featured flag and sort order are sent as typed; `category_id` is the parse of its text; thumbnail and description are absent when empty and as typed otherwise |
| PortfolioForm.LoadThenSubmit | frontend/components/admin/PortfolioForm.tsx:35-47 | loading an item and saving it unchanged reproduces its fields: the category id survives its trip through text, and NULL becomes absent |
| PortfolioForm.NoCategoryNoId | frontend/components/admin/PortfolioForm.tsx:92-94 | with no category chosen, no category id is sent |
| PortfolioForm.PortfolioEditor.HandleInputChange | frontend/components/admin/PortfolioForm.tsx:106-108 | exactly the named field takes the value, the sort order parsed |
| PortfolioForm.PortfolioEditor.HandleSubmit | frontend/components/admin/PortfolioForm.tsx:89-104 | the request sent is `SubmitPortfolioForm` of the editor's item and form |
| JsText.NullIfEmpty | frontend/components/admin/PortfolioForm.tsx:39-41 | a stored NULL or empty text, loaded into the form and sent back, is absent; any other text is sent as itself |
| JsText.ParseIntOfToString | frontend/components/admin/PortfolioForm.tsx:94 | `parseInt` of an integer's decimal text gives the integer back |
| TestimonialForm.RatingText | frontend/components/admin/TestimonialForm.tsx:31-41 | a NULL rating loads as `''`, any other as its decimal text |
| TestimonialForm.RatingValue | frontend/components/admin/TestimonialForm.tsx:90 | `''` is sent as no rating and any other text as its parse |
| TestimonialForm.SelectableRatingsInRange | frontend/components/admin/TestimonialForm.tsx:153-158 | each option of the select submits no rating or a rating k in 1..5 |
| TestimonialForm.RatingRoundTrip | frontend/components/admin/TestimonialForm.tsx:31-41 | a stored rating survives load and submit |
| TestimonialForm.LoadTestimonial | frontend/components/admin/TestimonialForm.tsx:31-41 | name, content and flag load as stored, a NULL role as `''`, and the rating as text that `RatingValue` turns back into the stored rating |
| TestimonialForm.InputChanged | frontend/components/admin/TestimonialForm.tsx:101-103 | exactly the named field takes the value; every other field stays |
| TestimonialForm.SubmitTestimonialForm | frontend/components/admin/TestimonialForm.tsx:83-99 | the id is attached, and update used, only when editing; name, content and featured flag are sent as typed; the role is absent when empty and as typed otherwise; the rating is `RatingValue` of its text |
| TestimonialForm.LoadThenSubmit | frontend/components/admin/TestimonialForm.tsx:31-41 | loading and saving unchanged sends the testimonial's own fields, NULL or empty role absent |
| TestimonialForm.TestimonialEditor.HandleSubmit | frontend/components/admin/TestimonialForm.tsx:83-99 | the request sent is `SubmitTestimonialForm` of the editor's item and form |
| TestimonialForm.TestimonialEditor.HandleInputChange | frontend/components/admin/TestimonialForm.tsx:101-103 | the form state becomes `InputChanged` of the old state |
| ImageUpload.CheckFile | frontend/components/admin/ImageUpload.tsx:57-75 | a file is accepted exactly when its type starts with `image/` and it is at most 10 MiB; a type mismatch is reported whatever the size |
| ImageUpload.SizeBoundary | frontend/components/admin/ImageUpload.tsx:67-75 | exactly 10·1024·1024 bytes is accepted, one byte more is too large |
| ImageUpload.TypeCheckedFirst | frontend/components/admin/ImageUpload.tsx:57-75 | an oversized non-image gets the type error message |
| ImageUpload.ImageUploader.constructor | frontend/components/admin/ImageUpload.tsx:25-26 | the preview starts as the given value, with `''` or none as no preview; not dragging, not pending, no read under way and no callback made |
| ImageUpload.ImageUploader.HandleFileSelect | frontend/components/admin/ImageUpload.tsx:54-84 | a rejected file starts nothing; an accepted one starts the read |
| ImageUpload.ImageUploader.ReaderLoaded | frontend/components/admin/ImageUpload.tsx:78-82 | the data URL becomes the preview and the upload is pending |
| ImageUpload.ImageUploader.UploadSucceeded | frontend/components/admin/ImageUpload.tsx:33-38 | `onChange(secureUrl)`, then `onPublicIdChange(publicId)` if given; the preview becomes the URL |
| ImageUpload.ImageUploader.UploadFailed | frontend/components/admin/ImageUpload.tsx:44-51 | the upload is no longer pending; no callback is made, and the preview of the read file stays |
| ImageUpload.ImageUploader.HandleDrop | frontend/components/admin/ImageUpload.tsx:86-96 | dragging ends; nothing else happens while disabled or pending; otherwise only the first dropped file is checked |
| ImageUpload.ImageUploader.HandleDragOver | frontend/components/admin/ImageUpload.tsx:98-103 | dragging starts only when neither disabled nor pending |
| ImageUpload.ImageUploader.HandleDragLeave | frontend/components/admin/ImageUpload.tsx:105-108 | dragging ends, whatever the state |
| ImageUpload.ImageUploader.HandleClick | frontend/components/admin/ImageUpload.tsx:110-113 | the picker opens exactly when neither disabled nor pending |
| ImageUpload.ImageUploader.HandleFileInputChange | frontend/components/admin/ImageUpload.tsx:115-120 | the picked file, if any, is checked |
| ImageUpload.ImageUploader.ClearImage | frontend/components/admin/ImageUpload.tsx:122-131 | no preview; `''` reported to `onChange` and, if given, to `onPublicIdChange` |
| ContactSubmissionsView.Toggled | frontend/components/admin/ContactSubmissions.tsx:17-27 | the toggled id is in the result exactly when it was not in the set; every other id keeps its membership |
| ContactSubmissionsView.ToggleTwice | frontend/components/admin/ContactSubmissions.tsx:17-27 | toggling the same id twice restores the set |
| ContactSubmissionsView.TogglesCommute | frontend/components/admin/ContactSubmissions.tsx:17-27 | toggles of two ids commute |
| ContactSubmissionsView.ExpandedItems.ToggleExpanded | frontend/components/admin/ContactSubmissions.tsx:17-27 | the copy-then-add-or-delete update leaves the set `Toggled` |
| UseRetry.RetryFrom | frontend/hooks/useRetry.ts:20-40 | the attempts from a given attempt number on; what a run looks like is stated by `RetryFromShape` |
| UseRetry.Retried | frontend/hooks/useRetry.ts:16-40 | a whole call runs the action at most `maxAttempts` times, and ends with the hook's own error exactly when `maxAttempts` is at most 0 |
| UseRetry.RetryFromShape | frontend/hooks/useRetry.ts:20-40 | the action runs at most once per remaining attempt; all attempts but the last failed and each was followed by its wait; the last decides: its value when it succeeded, its error when attempts ran out |
| UseRetry.DefaultAttempts | frontend/hooks/useRetry.ts:16 | with no options the action runs at most three times |
| UseRetry.NoAttemptAllowed | frontend/hooks/useRetry.ts:22-40 | with `maxAttempts <= 0` the action never runs and "Max retry attempts reached" is thrown |
| UseRetry.FirstSuccessReturned | frontend/hooks/useRetry.ts:23-26 | when attempt k is the first to succeed within the limit, its value is returned after exactly k calls |
| UseRetry.LastErrorRethrown | frontend/hooks/useRetry.ts:28-31 | when every allowed attempt fails, the last attempt's error is rethrown after `maxAttempts` calls and `maxAttempts - 1` waits |
| UseRetry.WaitSchedule | frontend/hooks/useRetry.ts:33-34 | wait k is `delay·2^(k-1)` with backoff and `delay` without; no wait follows the final attempt |
| UseRetry.RetryHook.Retry | frontend/hooks/useRetry.ts:16-40 | the attempt loop computes `Retried` of the action and options, and `isRetrying` is false on every exit |
| UseAuth.Step | frontend/hooks/useAuth.ts:14-38 | login stores and holds the token; logout clears both; mount restores a non-empty stored token and otherwise changes nothing |
| UseAuth.ReachableConsistent | frontend/hooks/useAuth.ts:9-38 | `isAuthenticated` holds exactly when a token is held, in every state reached by any sequence of events |
| UseAuth.FreshIsConsistent | frontend/hooks/useAuth.ts:9-12 | the initial state is consistent |
| UseAuth.LoginLogout | frontend/hooks/useAuth.ts:24-38 | login then logout returns to the initial state with empty storage |
| UseAuth.LoginSurvivesReload | frontend/hooks/useAuth.ts:14-30 | a token stored by login is restored by the next mount, unless it is empty |
| UseAuth.AuthHook.Login | frontend/hooks/useAuth.ts:24-30 | the hook's storage and state take `Step` with login, keeping the invariant |
| UseAuth.AuthHook.Logout | frontend/hooks/useAuth.ts:32-38 | the hook's storage and state take `Step` with logout, keeping the invariant |
| UseAuth.AuthHook.Mount | frontend/hooks/useAuth.ts:14-22 | the hook's state takes `Step` with mount, keeping the invariant |
| HeroSection.NextIndex | frontend/components/HeroSection.tsx:16 | from an index in `[0, n)` the tick stays in `[0, n)` and moves to the next image, wrapping from the last to the first |
| HeroSection.AfterTicksWithinCycle | frontend/components/HeroSection.tsx:14-19 | k ≤ n ticks move k images on, wrapping once |
| HeroSection.FullCycle | frontend/components/HeroSection.tsx:14-19 | after one tick per image the carousel is back at its start |
| HeroSection.ExactlyOneVisible | frontend/components/HeroSection.tsx:31-36 | exactly one image, the current one, has full opacity |
| HeroSection.HeroCarousel.Tick | frontend/components/HeroSection.tsx:16 | the index becomes `NextIndex` of the old one and stays in range |
| HeroSection.HeroCarousel.SelectIndicator | frontend/components/HeroSection.tsx:98 | clicking indicator i sets the index to i |

## Left out

- The SQL engine is a small interpreter, not PostgreSQL. Several things follow from that:
  - ORDER BY is an insertion sort with a comparator. The order of rows that tie on every key is therefore fixed by the model, whereas the engine may order them differently.
  - Text is compared code point by code point. PostgreSQL's collation for `ORDER BY name`, with its locale rules, is not modelled.
  - Where PostgreSQL sorts a NULL `published_at` under `DESC` is the parameter `nullsFirst`.
- Schema constraints are not assumed, because the migrations are not part of this model. In particular:
  - slug uniqueness is not assumed; `GetBlogPost` returns the first published row with the slug;
  - foreign keys are not assumed; items with a dangling `category_id` simply drop out of the join.
- Column defaults (`created_at`, `updated_at`) and `new Date()` are the `now` parameter. `new Date(event_date)` is the opaque `parseDate` parameter.
- Limits, offsets, ratings and sort orders are unbounded integers. Negative or fractional limits and offsets, which the TypeScript types allow, are not modelled.
- The LIMIT binding needs a non-negative integer.
- `QueryText` normalises the white space of the template literals. It keeps only the order of the pieces and the placeholder numbers.
- The contact listing runs two separate queries (page and count) that are not one snapshot; here they read the same table value.
- JavaScript text built-ins are modelled over ASCII:
  - `toLowerCase` and the regex classes in `generateSlug`;
  - `trim` and its white-space set;
  - `parseInt`, which here reads a trimmed, optionally signed decimal prefix and gives "none" for NaN. Hex, exponents, precision loss and other radixes are not modelled.
- The per-field `handleInputChange` APIs are modelled as one datatype of field updates per form.
- `Trim` of the password and `SubmittedPassword` cover only the page's submit guard. The rest of the login page (navigation, toasts) is rendering.
- Browser and library I/O is not modelled:
  - the FileReader read, the upload mutation and the Cloudinary pass-through in backend/storage/upload.ts;
  - react-query caching, invalidation and server round trips;
  - toasts, `console.error` and the hidden file input's reset in `clearImage`.
- `useRetry` does no real waiting: its waits are the recorded list `waits`. The action `fn` is a function from the attempt number to its outcome.
- UseRetry.RetryHook.Retry: `maxAttempts` and `delay` are integers. A fractional `maxAttempts`, which the source would loop past and then report as "Max retry attempts reached", is not modelled.
- The `isPending` flag comes from the upload mutation. It is a field (`pending`) that `ReaderLoaded`, `UploadSucceeded` and `UploadFailed` set and clear.
- `localStorage` in `useAuth` is one optional-string field.
- Rendering-only code is not modelled: pages, sections, navigation, lightbox, SEO head, the managers' show/edit flags, and `App`. The public portfolio section passes the selected category (undefined for 'all') and a limit of 12 to `listPortfolio`; `listPortfolio` is modelled for every such parameter set, and the mapping of 'all' to undefined is rendering. backend/portfolio/db.ts is configuration only.
- Concurrency between requests is not modelled: each handler is one atomic step.
- An observation, not a defect of the model: `updateBlogPost` does not declare the meta fields, and the blog editor loads posts from the public listing, which returns no meta columns. Meta fields set at creation therefore cannot be changed from the editor. `BlogForm.EditedMetaFieldsIgnored` states it.
