/** The static blog list and its slug lookup. */
module StaticBlogs {
  import opened Wrappers
  import opened SlugLookup

  /** A blog post's listing data; cover art, sections, quotes and galleries are not modelled. */
  datatype BlogPost = BlogPost(slug: string, tag: string, title: string, date: string, readTime: string, author: string)

  const Blogs: seq<BlogPost> := [
    BlogPost("future-of-home-health-monitoring", "Editors Pick",
             "The Future of Home Health Monitoring: What You Need to Know", "Nov 12, 2023", "8 min read",
             "Dr. Sarah Jenkins"),
    BlogPost("understanding-blood-pressure-readings", "Heart Health",
             "Understanding Your Blood Pressure Readings", "Oct 24, 2023", "5 min read",
             "Dr. Sarah Jenkins"),
    BlogPost("essential-first-aid-items", "Preparedness",
             "Essential First Aid Items for Every Home", "Oct 20, 2023", "3 min read",
             "Elena Morris")
  ]

  function SlugOf(p: BlogPost): string {
    p.slug
  }

  /** `getBlogBySlug`: the post with that slug, or none when there is none. */
  function GetBlogBySlug(slug: string): (r: Option<BlogPost>)
    ensures r.None? <==> forall i :: 0 <= i < |Blogs| ==> Blogs[i].slug != slug
    ensures r.Some? ==> r.value in Blogs && r.value.slug == slug
  {
    FindBySlug(Blogs, SlugOf, slug)
  }

  /** No two posts share a slug. */
  lemma SlugsDistinct()
    ensures DistinctKeys(Blogs, SlugOf)
  {
    assert |Blogs[0].slug| == 32 && |Blogs[1].slug| == 37 && |Blogs[2].slug| == 25;
  }

  /** Every post's own slug leads back to that post. */
  lemma EverySlugFindsItsPost(i: nat)
    requires i < |Blogs|
    ensures GetBlogBySlug(Blogs[i].slug) == Some(Blogs[i])
  {
    SlugsDistinct();
    FindOwnKey(Blogs, SlugOf, i);
  }
}
