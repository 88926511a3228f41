/**
 * The content store: one database holding the five tables, each a sequence
 * of rows in insertion order. Ids are allocated from a per-table serial
 * counter, which is what `RETURNING id` hands back. Time stamps are opaque
 * integers; "now" is always passed in by the caller.
 */
module Schema {
  import opened Wrappers

  type Timestamp = int

  datatype Category = Category(
    id: int, name: string, slug: string, description: Option<string>, createdAt: Timestamp)

  datatype PortfolioItem = PortfolioItem(
    id: int, title: string, description: Option<string>, imageUrl: string,
    thumbnailUrl: Option<string>, categoryId: int, featured: bool, sortOrder: int,
    createdAt: Timestamp)

  datatype Testimonial = Testimonial(
    id: int, clientName: string, clientRole: Option<string>, content: string,
    rating: Option<int>, featured: bool, createdAt: Timestamp)

  datatype BlogPost = BlogPost(
    id: int, title: string, slug: string, excerpt: Option<string>, content: string,
    featuredImageUrl: Option<string>, published: bool, publishedAt: Option<Timestamp>,
    metaTitle: Option<string>, metaDescription: Option<string>, metaKeywords: Option<string>,
    createdAt: Timestamp, updatedAt: Timestamp)

  datatype ContactSubmission = ContactSubmission(
    id: int, name: string, email: string, phone: Option<string>, subject: Option<string>,
    message: string, serviceType: Option<string>, eventDate: Option<Timestamp>,
    createdAt: Timestamp)

  /** The answer of an insert handler: the new row's id and a fixed message. */
  datatype Created = Created(id: int, message: string)

  /** The answer of an update or delete handler: a fixed message. */
  datatype Done = Done(message: string)

  /** The `portfolio` database. */
  class Database {
    var categories: seq<Category>
    var portfolioItems: seq<PortfolioItem>
    var testimonials: seq<Testimonial>
    var blogPosts: seq<BlogPost>
    var contactSubmissions: seq<ContactSubmission>
    var nextPortfolioId: int
    var nextTestimonialId: int
    var nextBlogId: int
    var nextContactId: int

    /** Every stored id was handed out by its table's counter. */
    ghost predicate Valid()
      reads this
    {
      && (forall i :: 0 <= i < |portfolioItems| ==> portfolioItems[i].id < nextPortfolioId)
      && (forall i :: 0 <= i < |testimonials| ==> testimonials[i].id < nextTestimonialId)
      && (forall i :: 0 <= i < |blogPosts| ==> blogPosts[i].id < nextBlogId)
      && (forall i :: 0 <= i < |contactSubmissions| ==> contactSubmissions[i].id < nextContactId)
    }

    /** An empty database whose serial counters start at 1. */
    constructor (categories: seq<Category>)
      ensures Valid()
      ensures this.categories == categories
      ensures portfolioItems == [] && testimonials == [] && blogPosts == [] && contactSubmissions == []
    {
      this.categories := categories;
      portfolioItems, testimonials, blogPosts, contactSubmissions := [], [], [], [];
      nextPortfolioId, nextTestimonialId, nextBlogId, nextContactId := 1, 1, 1, 1;
    }
  }
}
