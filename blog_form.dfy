/**
 * The admin blog editor: `generateSlug`, the form state with its title and
 * field handlers, the load of an existing post into the form, and the
 * request the form submits.
 */
module BlogForm {
  import opened Wrappers
  import opened JsText
  import opened Schema
  import opened BlogPosts

  // ------------------------------------------------------------ generateSlug

  /** The characters `[a-z0-9]` that survive in a slug. */
  predicate IsSlugChar(c: char) { IsAsciiLower(c) || IsDigit(c) }

  /** Only `[a-z0-9-]`. */
  predicate SlugCharset(s: string) {
    forall i :: 0 <= i < |s| ==> IsSlugChar(s[i]) || s[i] == '-'
  }

  /** No `--` anywhere. */
  ghost predicate NoDoubleDash(s: string) {
    forall i, j :: 0 <= i < j < |s| && j == i + 1 ==> !(s[i] == '-' && s[j] == '-')
  }

  /** Neither the first nor the last character is `-`. */
  predicate NoEdgeDash(s: string) {
    s == [] || (s[0] != '-' && s[|s| - 1] != '-')
  }

  ghost predicate WellFormedSlug(s: string) {
    SlugCharset(s) && NoDoubleDash(s) && NoEdgeDash(s)
  }

  /** No character of `s` is in `[a-z0-9]`. */
  predicate AllSeparators(s: string) {
    forall i :: 0 <= i < |s| ==> !IsSlugChar(s[i])
  }

  /** The leading run of characters outside `[a-z0-9]`, dropped. */
  function DropSeparators(s: string): (r: string)
    ensures |r| <= |s|
    ensures r == [] || IsSlugChar(r[0])
    ensures AllSeparators(s[..|s| - |r|])
  {
    if s == [] || IsSlugChar(s[0]) then s else DropSeparators(s[1..])
  }

  /** `.replace(/[^a-z0-9]+/g, '-')`: every maximal run outside `[a-z0-9]` becomes one `-`. */
  function Collapse(s: string): (r: string)
    ensures SlugCharset(r) && NoDoubleDash(r)
    ensures r == [] <==> s == []
    ensures s != [] && IsSlugChar(s[0]) ==> r[0] == s[0]
    ensures s != [] && !IsSlugChar(s[0]) ==> r[0] == '-'
    decreases |s|
  {
    if s == [] then []
    else if IsSlugChar(s[0]) then [s[0]] + Collapse(s[1..])
    else ['-'] + Collapse(DropSeparators(s[1..]))
  }

  /** `.replace(/(^-|-$)/g, '')`: one leading and one trailing `-` removed. */
  function TrimDashes(s: string): string {
    var a := if s != [] && s[0] == '-' then s[1..] else s;
    if a != [] && a[|a| - 1] == '-' then a[..|a| - 1] else a
  }

  /** `generateSlug`, over ASCII: lower-case, collapse separators, trim dashes. */
  function GenerateSlug(title: string): (r: string)
    ensures WellFormedSlug(r)
  {
    var c := Collapse(ToLowerCase(title));
    TrimDashesWellFormed(c);
    TrimDashes(c)
  }

  /** The letters and digits of `s`, in order. */
  function LettersAndDigits(s: string): string {
    if s == [] then []
    else (if IsSlugChar(s[0]) then [s[0]] else []) + LettersAndDigits(s[1..])
  }

  lemma {:induction false} LettersAndDigitsAppend(a: string, b: string)
    ensures LettersAndDigits(a + b) == LettersAndDigits(a) + LettersAndDigits(b)
  {
    if a != [] {
      assert (a + b)[1..] == a[1..] + b;
      LettersAndDigitsAppend(a[1..], b);
    } else {
      assert a + b == b;
    }
  }

  lemma {:induction false} DropSeparatorsKeepsLetters(s: string)
    ensures LettersAndDigits(DropSeparators(s)) == LettersAndDigits(s)
    decreases |s|
  {
    if s != [] && !IsSlugChar(s[0]) {
      DropSeparatorsKeepsLetters(s[1..]);
    }
  }

  lemma {:induction false} CollapseKeepsLetters(s: string)
    ensures LettersAndDigits(Collapse(s)) == LettersAndDigits(s)
    decreases |s|
  {
    if s != [] {
      if IsSlugChar(s[0]) {
        LettersAndDigitsAppend([s[0]], Collapse(s[1..]));
        CollapseKeepsLetters(s[1..]);
      } else {
        LettersAndDigitsAppend(['-'], Collapse(DropSeparators(s[1..])));
        CollapseKeepsLetters(DropSeparators(s[1..]));
        DropSeparatorsKeepsLetters(s[1..]);
      }
    }
  }

  lemma TrimDashesKeepsLetters(s: string)
    ensures LettersAndDigits(TrimDashes(s)) == LettersAndDigits(s)
  {
    var a := if s != [] && s[0] == '-' then s[1..] else s;
    if s != [] && s[0] == '-' {
      assert s == ['-'] + a;
      LettersAndDigitsAppend(['-'], a);
    }
    if a != [] && a[|a| - 1] == '-' {
      assert a == a[..|a| - 1] + ['-'];
      LettersAndDigitsAppend(a[..|a| - 1], ['-']);
    }
  }

  /**
   * Trimming collapsed text leaves a slug made of `[a-z0-9-]`, with no `--`,
   * neither starting nor ending with `-`.
   */
  lemma TrimDashesWellFormed(c: string)
    requires SlugCharset(c) && NoDoubleDash(c)
    ensures WellFormedSlug(TrimDashes(c))
  {
    var a := if c != [] && c[0] == '-' then c[1..] else c;
    assert SlugCharset(a) && NoDoubleDash(a);
    assert a != [] && c != [] && c[0] == '-' ==> a[0] != '-' by {
      if a != [] && c != [] && c[0] == '-' { assert c[1] == a[0]; }
    }
    var r := TrimDashes(c);
    assert r == if a != [] && a[|a| - 1] == '-' then a[..|a| - 1] else a;
    if a != [] && a[|a| - 1] == '-' && |a| >= 2 {
      assert a[|a| - 2] != '-';
    }
  }

  /** The slug's letters and digits are exactly those of the lower-cased title, in order. */
  lemma GenerateSlugKeepsLetters(title: string)
    ensures LettersAndDigits(GenerateSlug(title)) == LettersAndDigits(ToLowerCase(title))
  {
    CollapseKeepsLetters(ToLowerCase(title));
    TrimDashesKeepsLetters(Collapse(ToLowerCase(title)));
  }

  lemma {:induction false} CollapseFixes(s: string)
    requires SlugCharset(s) && NoDoubleDash(s)
    ensures Collapse(s) == s
    decreases |s|
  {
    if s != [] {
      assert SlugCharset(s[1..]) && NoDoubleDash(s[1..]) by {
        forall i | 0 <= i < |s[1..]| - 1 ensures !(s[1..][i] == '-' && s[1..][i + 1] == '-') {
          assert s[1..][i] == s[i + 1] && s[1..][i + 1] == s[i + 2];
        }
      }
      if !IsSlugChar(s[0]) {
        assert DropSeparators(s[1..]) == s[1..] by {
          if s[1..] != [] { assert s[1] != '-'; }
        }
      }
      CollapseFixes(s[1..]);
    }
  }

  /** Regenerating the slug from a slug changes nothing. */
  lemma GenerateSlugIdempotent(title: string)
    ensures GenerateSlug(GenerateSlug(title)) == GenerateSlug(title)
  {
    var s := GenerateSlug(title);
    assert ToLowerCase(s) == s;
    CollapseFixes(s);
  }

  /** What `DropSeparators` keeps is a suffix of its input. */
  lemma {:induction false} DropSeparatorsIsSuffix(s: string)
    ensures DropSeparators(s) == s[|s| - |DropSeparators(s)|..]
  {
    if s != [] && !IsSlugChar(s[0]) {
      DropSeparatorsIsSuffix(s[1..]);
      assert s[1..][|s| - 1 - |DropSeparators(s)|..] == s[|s| - |DropSeparators(s)|..];
    }
  }

  /** `DropSeparators` stops inside `a` when `a` holds a slug character. */
  lemma {:induction false} DropSeparatorsAppend(a: string, b: string, i: nat)
    requires i < |a| && IsSlugChar(a[i])
    ensures DropSeparators(a + b) == DropSeparators(a) + b
    ensures DropSeparators(a) != [] && DropSeparators(a)[|DropSeparators(a)| - 1] == a[|a| - 1]
  {
    var ab := a + b;
    assert ab[0] == a[0];
    if IsSlugChar(a[0]) {
      assert DropSeparators(ab) == ab;
      assert DropSeparators(a) == a;
    } else {
      var t := a[1..];
      assert ab[1..] == t + b;
      assert DropSeparators(a) == DropSeparators(t);
      assert DropSeparators(ab) == DropSeparators(t + b);
      DropSeparatorsAppend(t, b, i - 1);
      assert t[|t| - 1] == a[|a| - 1];
    }
  }

  /** A separator run followed by a slug character, or by nothing, is dropped whole. */
  lemma {:induction false} DropSeparatorsRun(w: string, v: string)
    requires AllSeparators(w)
    requires v == [] || IsSlugChar(v[0])
    ensures DropSeparators(w + v) == v
  {
    if w == [] {
      assert w + v == v;
    } else {
      assert (w + v)[1..] == w[1..] + v;
      DropSeparatorsRun(w[1..], v);
    }
  }

  lemma CollapseSlugCons(c: char, s: string)
    requires IsSlugChar(c)
    ensures Collapse([c] + s) == [c] + Collapse(s)
  {
    assert ([c] + s)[0] == c && ([c] + s)[1..] == s;
  }

  lemma CollapseSeparatorCons(c: char, s: string)
    requires !IsSlugChar(c)
    ensures Collapse([c] + s) == "-" + Collapse(DropSeparators(s))
  {
    assert ([c] + s)[0] == c && ([c] + s)[1..] == s;
  }

  /** Text ending in a slug character is collapsed apart from whatever follows it. */
  lemma {:induction false} CollapseAppend(a: string, b: string)
    requires a == [] || IsSlugChar(a[|a| - 1])
    ensures Collapse(a + b) == Collapse(a) + Collapse(b)
    decreases |a|, 1
  {
    if a == [] {
      assert a + b == b;
    } else if IsSlugChar(a[0]) {
      CollapseAppendWord(a, b);
    } else {
      CollapseAppendSeparator(a, b);
    }
  }

  lemma {:induction false} CollapseAppendWord(a: string, b: string)
    requires a != [] && IsSlugChar(a[0]) && IsSlugChar(a[|a| - 1])
    ensures Collapse(a + b) == Collapse(a) + Collapse(b)
    decreases |a|, 0
  {
    var rest := a[1..];
    assert a == [a[0]] + rest;
    assert a + b == [a[0]] + (rest + b);
    CollapseSlugCons(a[0], rest + b);
    CollapseSlugCons(a[0], rest);
    CollapseAppend(rest, b);
  }

  lemma {:induction false} CollapseAppendSeparator(a: string, b: string)
    requires a != [] && !IsSlugChar(a[0]) && IsSlugChar(a[|a| - 1])
    ensures Collapse(a + b) == Collapse(a) + Collapse(b)
    decreases |a|, 0
  {
    var rest := a[1..];
    assert a == [a[0]] + rest;
    assert a + b == [a[0]] + (rest + b);
    assert rest[|rest| - 1] == a[|a| - 1];
    var d := DropSeparators(rest);
    CollapseSeparatorCons(a[0], rest + b);
    CollapseSeparatorCons(a[0], rest);
    DropSeparatorsAppend(rest, b, |rest| - 1);
    CollapseAppend(d, b);
  }

  /**
   * A maximal run `w` outside `[a-z0-9]` between `u` and `v` becomes exactly
   * one `-`, and the text on either side is collapsed on its own.
   */
  lemma CollapseSeparatesWords(u: string, w: string, v: string)
    requires u == [] || IsSlugChar(u[|u| - 1])
    requires w != [] && AllSeparators(w)
    requires v == [] || IsSlugChar(v[0])
    ensures Collapse(u + w + v) == Collapse(u) + "-" + Collapse(v)
  {
    var wv := w + v;
    assert u + w + v == u + wv;
    assert Collapse(u + wv) == Collapse(u) + Collapse(wv) by { CollapseAppend(u, wv); }
    assert Collapse(wv) == "-" + Collapse(v) by { CollapseSeparatorRun(w, v); }
  }

  /** A separator run before a slug character, or before nothing, collapses to one `-`. */
  lemma CollapseSeparatorRun(w: string, v: string)
    requires w != [] && AllSeparators(w)
    requires v == [] || IsSlugChar(v[0])
    ensures Collapse(w + v) == "-" + Collapse(v)
  {
    assert w + v == [w[0]] + (w[1..] + v);
    CollapseSeparatorCons(w[0], w[1..] + v);
    DropSeparatorsRun(w[1..], v);
  }

  /** A non-empty run of `[a-z0-9]`. */
  predicate IsWord(s: string) {
    s != [] && forall i :: 0 <= i < |s| ==> IsSlugChar(s[i])
  }

  /** Lower-casing leaves the words `u` and `v` as they are. */
  lemma LowerCaseAroundWords(u: string, w: string, v: string)
    requires IsWord(u) && IsWord(v)
    ensures ToLowerCase(u + w + v) == u + ToLowerCase(w) + v
  {
    var t := u + w + v;
    var lw := ToLowerCase(w);
    forall i | 0 <= i < |t| ensures ToLowerCase(t)[i] == (u + lw + v)[i] {
      if i < |u| {
        assert t[i] == u[i];
      } else if i < |u| + |w| {
        assert t[i] == w[i - |u|];
      } else {
        assert t[i] == v[i - |u| - |w|];
      }
    }
  }

  /**
   * Two words with a run of separators between them (characters that are
   * not `[a-z0-9]` once lower-cased) give the two words joined by one `-`.
   */
  lemma GenerateSlugJoinsWords(u: string, w: string, v: string)
    requires IsWord(u) && IsWord(v)
    requires w != [] && forall j :: 0 <= j < |w| ==> !IsSlugChar(LowerChar(w[j]))
    ensures GenerateSlug(u + w + v) == u + "-" + v
  {
    var lw := ToLowerCase(w);
    LowerCaseAroundWords(u, w, v);
    assert AllSeparators(lw);
    CollapseSeparatesWords(u, lw, v);
    WordCollapsesToItself(u);
    WordCollapsesToItself(v);
    TrimDashesOfJoin(u, v);
  }

  lemma WordCollapsesToItself(u: string)
    requires IsWord(u)
    ensures Collapse(u) == u
  {
    CollapseFixes(u);
  }

  /** Words joined by `-` have no dash at either end to trim. */
  lemma TrimDashesOfJoin(u: string, v: string)
    requires IsWord(u) && IsWord(v)
    ensures TrimDashes(u + "-" + v) == u + "-" + v
  {
    var r := u + "-" + v;
    assert r[0] == u[0] && r[|r| - 1] == v[|v| - 1];
  }

  // -------------------------------------------------------------- form state

  /** The editor's `formData`: every field is text except the publish flag. */
  datatype BlogFormData = BlogFormData(
    title: string, slug: string, excerpt: string, content: string, featuredImageUrl: string,
    published: bool, metaTitle: string, metaDescription: string, metaKeywords: string)

  const EmptyBlogForm: BlogFormData := BlogFormData("", "", "", "", "", false, "", "", "")

  /**
   * The load effect. The post comes from the public listing, which has no
   * meta columns, so the three meta fields always load as `''`.
   */
  function LoadBlogPost(item: BlogPostSummary): (r: BlogFormData)
    ensures r.title == item.title && r.slug == item.slug && r.content == item.content
    ensures r.published == item.published
    ensures r.excerpt == (if item.excerpt.Some? then item.excerpt.value else "")
    ensures r.featuredImageUrl == (if item.featuredImageUrl.Some? then item.featuredImageUrl.value else "")
    ensures r.metaTitle == "" && r.metaDescription == "" && r.metaKeywords == ""
  {
    BlogFormData(item.title, item.slug, OrEmpty(item.excerpt), item.content,
                 OrEmpty(item.featuredImageUrl), item.published, "", "", "")
  }

  /**
   * `handleTitleChange`: the title is replaced; a new post's slug is
   * regenerated from it; `meta_title` follows it on a new post or while
   * it is empty.
   */
  function TitleChanged(prev: BlogFormData, editing: bool, title: string): (r: BlogFormData)
    ensures r.title == title
    ensures !editing ==> r.slug == GenerateSlug(title) && r.metaTitle == title
    ensures editing ==> r.slug == prev.slug
    ensures editing ==> r.metaTitle == if prev.metaTitle == "" then title else prev.metaTitle
    ensures r.(title := prev.title, slug := prev.slug, metaTitle := prev.metaTitle) == prev
  {
    prev.(title := title,
          slug := if !editing then GenerateSlug(title) else prev.slug,
          metaTitle := if !editing || prev.metaTitle == "" then title else prev.metaTitle)
  }

  /** On a new post the slug field always holds a well-formed slug of the current title. */
  lemma NewPostSlugWellFormed(prev: BlogFormData, title: string)
    ensures WellFormedSlug(TitleChanged(prev, false, title).slug)
  {
  }

  /** On a new post only the last title typed matters. */
  lemma NewPostLastTitleWins(prev: BlogFormData, t1: string, t2: string)
    ensures TitleChanged(TitleChanged(prev, false, t1), false, t2) == TitleChanged(prev, false, t2)
  {
  }

  /**
   * When editing, an empty `meta_title` latches onto the first non-empty
   * title typed and then stays.
   */
  lemma EditingMetaTitleLatches(prev: BlogFormData, t1: string, t2: string)
    requires prev.metaTitle == "" && t1 != ""
    ensures TitleChanged(TitleChanged(prev, true, t1), true, t2).metaTitle == t1
  {
  }

  /** The fields `handleInputChange` can set from the editor's inputs. */
  datatype BlogField =
    | SlugField(slug: string)
    | ExcerptField(excerpt: string)
    | ContentField(content: string)
    | FeaturedImageField(url: string)
    | PublishedField(published: bool)
    | MetaTitleField(metaTitle: string)
    | MetaDescriptionField(metaDescription: string)
    | MetaKeywordsField(metaKeywords: string)

  /** `handleInputChange(field, value)`: that field takes the value, nothing else changes. */
  function InputChanged(prev: BlogFormData, f: BlogField): (r: BlogFormData)
    ensures r.title == prev.title
    ensures r.slug == if f.SlugField? then f.slug else prev.slug
    ensures r.excerpt == if f.ExcerptField? then f.excerpt else prev.excerpt
    ensures r.content == if f.ContentField? then f.content else prev.content
    ensures r.featuredImageUrl == if f.FeaturedImageField? then f.url else prev.featuredImageUrl
    ensures r.published == if f.PublishedField? then f.published else prev.published
    ensures r.metaTitle == if f.MetaTitleField? then f.metaTitle else prev.metaTitle
    ensures r.metaDescription == if f.MetaDescriptionField? then f.metaDescription else prev.metaDescription
    ensures r.metaKeywords == if f.MetaKeywordsField? then f.metaKeywords else prev.metaKeywords
  {
    match f
    case SlugField(v) => prev.(slug := v)
    case ExcerptField(v) => prev.(excerpt := v)
    case ContentField(v) => prev.(content := v)
    case FeaturedImageField(v) => prev.(featuredImageUrl := v)
    case PublishedField(v) => prev.(published := v)
    case MetaTitleField(v) => prev.(metaTitle := v)
    case MetaDescriptionField(v) => prev.(metaDescription := v)
    case MetaKeywordsField(v) => prev.(metaKeywords := v)
  }

  /** A typed meta title is kept by later title changes while editing. */
  lemma TypedMetaTitleKept(prev: BlogFormData, m: string, title: string)
    requires m != ""
    ensures TitleChanged(InputChanged(prev, MetaTitleField(m)), true, title).metaTitle == m
  {
  }

  // ------------------------------------------------------------------ submit

  /** What `handleSubmit` sends: an update of the loaded post, or a create. */
  datatype BlogSubmission =
    | UpdatePost(id: int, payload: CreateBlogPostRequest)
    | CreatePost(payload: CreateBlogPostRequest)

  function BlogPayload(f: BlogFormData): CreateBlogPostRequest {
    CreateBlogPostRequest(f.title, f.slug, NonEmpty(f.excerpt), f.content, NonEmpty(f.featuredImageUrl),
                          f.published, NonEmpty(f.metaTitle), NonEmpty(f.metaDescription),
                          NonEmpty(f.metaKeywords))
  }

  function SubmitBlogForm(item: Option<BlogPostSummary>, f: BlogFormData): (r: BlogSubmission)
    ensures r.UpdatePost? <==> item.Some?
    ensures r.UpdatePost? ==> r.id == item.value.id
    ensures r.payload.title == f.title && r.payload.slug == f.slug && r.payload.content == f.content
    ensures r.payload.published == f.published
    ensures r.payload.excerpt == NonEmpty(f.excerpt)
    ensures r.payload.featuredImageUrl == NonEmpty(f.featuredImageUrl)
    ensures r.payload.metaTitle == NonEmpty(f.metaTitle)
    ensures r.payload.metaDescription == NonEmpty(f.metaDescription)
    ensures r.payload.metaKeywords == NonEmpty(f.metaKeywords)
  {
    if item.Some? then UpdatePost(item.value.id, BlogPayload(f)) else CreatePost(BlogPayload(f))
  }

  /** The update endpoint's request keeps only the fields it declares; the meta fields are dropped. */
  function AsUpdateRequest(payload: CreateBlogPostRequest): UpdateBlogPostRequest {
    UpdateBlogPostRequest(payload.title, payload.slug, payload.excerpt, payload.content,
                          payload.featuredImageUrl, payload.published)
  }

  /**
   * Loading a post and saving it unchanged sends the post's own fields,
   * with a NULL or empty excerpt or image sent as absent.
   */
  lemma LoadThenSubmit(item: BlogPostSummary)
    ensures SubmitBlogForm(Some(item), LoadBlogPost(item))
         == UpdatePost(item.id, CreateBlogPostRequest(
              item.title, item.slug, NullIfEmpty(item.excerpt), item.content,
              NullIfEmpty(item.featuredImageUrl), item.published, None, None, None))
  {
  }

  /**
   * Meta fields typed while editing never reach the table: the update
   * keeps the stored ones whatever the form held.
   */
  lemma EditedMetaFieldsIgnored(rows: seq<BlogPost>, item: BlogPostSummary, f: BlogFormData,
                                now: Timestamp, i: nat)
    requires i < |rows| && rows[i].id == item.id
    ensures UpdatedBlogPosts(rows, item.id, AsUpdateRequest(SubmitBlogForm(Some(item), f).payload), now)[i].metaTitle
         == rows[i].metaTitle
    ensures UpdatedBlogPosts(rows, item.id, AsUpdateRequest(SubmitBlogForm(Some(item), f).payload), now)[i].metaDescription
         == rows[i].metaDescription
    ensures UpdatedBlogPosts(rows, item.id, AsUpdateRequest(SubmitBlogForm(Some(item), f).payload), now)[i].metaKeywords
         == rows[i].metaKeywords
  {
  }

  /** The editor component: the post being edited (if any) and the form state. */
  class BlogEditor {
    const item: Option<BlogPostSummary>
    var formData: BlogFormData

    /** Mounting with a post runs the load effect; a new post starts blank. */
    constructor (item: Option<BlogPostSummary>)
      ensures this.item == item
      ensures formData == if item.Some? then LoadBlogPost(item.value) else EmptyBlogForm
    {
      this.item := item;
      formData := if item.Some? then LoadBlogPost(item.value) else EmptyBlogForm;
    }

    method HandleTitleChange(title: string)
      modifies this
      ensures formData == TitleChanged(old(formData), item.Some?, title)
    {
      formData := TitleChanged(formData, item.Some?, title);
    }

    method HandleInputChange(f: BlogField)
      modifies this
      ensures formData == InputChanged(old(formData), f)
    {
      formData := InputChanged(formData, f);
    }

    /** `handleSubmit`: the request to send; sending it is left to the caller. */
    method HandleSubmit() returns (submission: BlogSubmission)
      ensures submission == SubmitBlogForm(item, formData)
    {
      var data := BlogPayload(formData);
      if item.Some? {
        submission := UpdatePost(item.value.id, data);
      } else {
        submission := CreatePost(data);
      }
    }
  }
}
