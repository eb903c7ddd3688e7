/**
 * The selection and ordering rules of the site build (scripts/build.ts):
 * which markdown files become posts and projects and under which slug,
 * which pages are written, the project order, the featured projects, the
 * recent posts, the link on a project card, and the two placeholder
 * substitutions in the home page template.
 *
 * Reading files, `gray-matter` and `marked` are parameters: `parse` gives
 * the front matter of a file name. Dates are integer timestamps and
 * `localeCompare` is an abstract relation `slugLe` on slugs.
 */
module Build {
  import opened Wrappers
  import opened Strings
  import Sorting

  const MarkdownExt := ".md"
  const OutputDir := "./dist/blog"
  const ProjectsOutputDir := "./dist/projects"
  const RecentPostsMarker := "<!-- RECENT_POSTS -->"
  const FeaturedProjectsMarker := "<!-- FEATURED_PROJECTS -->"
  /** The order of a project without an `order` field. */
  const DefaultOrder := 999
  /** The default `limit` of the recent posts. */
  const DefaultRecentLimit := 3

  datatype PostFrontmatter = PostFrontmatter(title: string, description: string, date: int)
  datatype Post = Post(slug: string, frontmatter: PostFrontmatter)

  /** A missing `featured` or `expandable` is false; a missing `github` or `order` is None. */
  datatype ProjectFrontmatter = ProjectFrontmatter(title: string, description: string, github: Option<string>,
                                                   featured: bool, expandable: bool, order: Option<int>)
  datatype Project = Project(slug: string, frontmatter: ProjectFrontmatter)

  // ---------------------------------------------------------------------------
  // Markdown files and slugs

  /** `files.filter((f) => f.endsWith(".md"))`, in directory order. */
  function MdFiles(files: seq<string>): (r: seq<string>)
    ensures forall f :: f in r <==> f in files && EndsWith(f, MarkdownExt)
    ensures |r| <= |files|
  {
    if |files| == 0 then []
    else if EndsWith(files[0], MarkdownExt) then [files[0]] + MdFiles(files[1..])
    else MdFiles(files[1..])
  }

  /** The filter keeps directory order: the files of two runs of names are those of each run, in turn. */
  lemma {:induction false} MdFilesAppend(a: seq<string>, b: seq<string>)
    ensures MdFiles(a + b) == MdFiles(a) + MdFiles(b)
  {
    if |a| == 0 {
      assert a + b == b;
    } else {
      assert (a + b)[1..] == a[1..] + b;
      MdFilesAppend(a[1..], b);
    }
  }

  /**
   * `file.replace(".md", "")`: the first `.md` is removed, wherever it is;
   * putting it back at that place gives the name again.
   */
  function Slug(file: string): (slug: string)
    ensures !Contains(file, MarkdownExt) ==> slug == file
    ensures Contains(file, MarkdownExt) ==>
              var i := IndexOf(file, MarkdownExt).value;
              |slug| + |MarkdownExt| == |file| && slug[..i] + MarkdownExt + slug[i..] == file
  {
    var slug := ReplaceFirst(file, MarkdownExt, "");
    if !Contains(file, MarkdownExt) then slug
    else
      var i := IndexOf(file, MarkdownExt).value;
      assert file == file[..i] + file[i..i + |MarkdownExt|] + file[i + |MarkdownExt|..];
      assert slug[..i] + MarkdownExt + slug[i..] == file;
      slug
  }

  /** When the only `.md` of a name is its extension, the slug is the name without it. */
  lemma SlugDropsExtension(file: string)
    requires EndsWith(file, MarkdownExt)
    requires forall j: nat :: j < |file| - |MarkdownExt| ==> !OccursAt(file, MarkdownExt, j)
    ensures Slug(file) == file[..|file| - |MarkdownExt|]
  {
    var i: nat := |file| - |MarkdownExt|;
    ReplaceFirstAt(file, MarkdownExt, "", i);
    assert file[i + |MarkdownExt|..] == [];
  }

  /** A name with an earlier `.md` loses that one instead: `a.md.md` gives the slug `a.md`. */
  lemma SlugRemovesFirstOccurrence()
    ensures Slug("a.md.md") == "a.md"
  {
    var f := "a.md.md";
    assert OccursAt(f, MarkdownExt, 1);
    assert f[0] != MarkdownExt[0];
    ReplaceFirstAt(f, MarkdownExt, "", 1);
    assert f[..1] + "" + f[4..] == "a.md";
  }

  // ---------------------------------------------------------------------------
  // Reading posts and projects

  /** `join(OUTPUT_DIR, `${slug}.html`)`, the page of a post. */
  function PostPath(slug: string): string {
    OutputDir + "/" + slug + ".html"
  }

  /** `join(PROJECTS_OUTPUT_DIR, `${slug}.html`)`, the detail page of a project. */
  function ProjectPath(slug: string): string {
    ProjectsOutputDir + "/" + slug + ".html"
  }

  /** Different slugs get different pages. */
  lemma PagePathsInjective(a: string, b: string)
    ensures PostPath(a) == PostPath(b) ==> a == b
    ensures ProjectPath(a) == ProjectPath(b) ==> a == b
  {
    if PostPath(a) == PostPath(b) {
      var n := |OutputDir + "/"|;
      assert a == PostPath(a)[n..|PostPath(a)| - 5];
      assert b == PostPath(b)[n..|PostPath(b)| - 5];
    }
    if ProjectPath(a) == ProjectPath(b) {
      var n := |ProjectsOutputDir + "/"|;
      assert a == ProjectPath(a)[n..|ProjectPath(a)| - 5];
      assert b == ProjectPath(b)[n..|ProjectPath(b)| - 5];
    }
  }

  /** The post of each markdown file, in order: its slug and its front matter. */
  function PostsOf(files: seq<string>, parse: string -> PostFrontmatter): (r: seq<Post>)
    ensures |r| == |files|
  {
    if |files| == 0 then []
    else PostsOf(files[..|files| - 1], parse) + [Post(Slug(files[|files| - 1]), parse(files[|files| - 1]))]
  }

  /** Post i comes from file i. */
  lemma {:induction false} PostsOfAt(files: seq<string>, parse: string -> PostFrontmatter, i: nat)
    requires i < |files|
    ensures PostsOf(files, parse)[i] == Post(Slug(files[i]), parse(files[i]))
  {
    if i < |files| - 1 {
      PostsOfAt(files[..|files| - 1], parse, i);
    }
  }

  /**
   * The post loop of `build`: one post per markdown file, in order, and one
   * page written per post.
   */
  method BuildPosts(files: seq<string>, parse: string -> PostFrontmatter)
    returns (posts: seq<Post>, written: seq<string>)
    ensures posts == PostsOf(MdFiles(files), parse)
    ensures |written| == |posts| && forall i :: 0 <= i < |posts| ==> written[i] == PostPath(posts[i].slug)
  {
    var mdFiles := MdFiles(files);
    posts, written := [], [];
    for i := 0 to |mdFiles|
      invariant posts == PostsOf(mdFiles[..i], parse)
      invariant |written| == i && forall k :: 0 <= k < i ==> written[k] == PostPath(posts[k].slug)
    {
      var file := mdFiles[i];
      var slug := Slug(file);
      var post := Post(slug, parse(file));
      assert mdFiles[..i + 1][..i] == mdFiles[..i];
      posts := posts + [post];
      written := written + [PostPath(slug)];
    }
    assert mdFiles[..|mdFiles|] == mdFiles;
  }

  /** The detail pages of the expandable projects, in order. */
  function DetailPages(projects: seq<Project>): (r: seq<string>)
    ensures |r| <= |projects|
  {
    if |projects| == 0 then []
    else if projects[0].frontmatter.expandable then [ProjectPath(projects[0].slug)] + DetailPages(projects[1..])
    else DetailPages(projects[1..])
  }

  /** A detail page is written for a slug exactly when a project with that slug is expandable. */
  lemma {:induction false} DetailPageIffExpandable(projects: seq<Project>, slug: string)
    ensures ProjectPath(slug) in DetailPages(projects) <==>
            exists p :: p in projects && p.slug == slug && p.frontmatter.expandable
  {
    if |projects| > 0 {
      DetailPageIffExpandable(projects[1..], slug);
      PagePathsInjective(projects[0].slug, slug);
      assert projects == [projects[0]] + projects[1..];
    }
  }

  /** The project of each markdown file, in order: its slug and its front matter. */
  function ProjectsOf(files: seq<string>, parse: string -> ProjectFrontmatter): (r: seq<Project>)
    ensures |r| == |files|
  {
    if |files| == 0 then []
    else ProjectsOf(files[..|files| - 1], parse) + [Project(Slug(files[|files| - 1]), parse(files[|files| - 1]))]
  }

  /** Project i comes from file i. */
  lemma {:induction false} ProjectsOfAt(files: seq<string>, parse: string -> ProjectFrontmatter, i: nat)
    requires i < |files|
    ensures ProjectsOf(files, parse)[i] == Project(Slug(files[i]), parse(files[i]))
  {
    if i < |files| - 1 {
      ProjectsOfAt(files[..|files| - 1], parse, i);
    }
  }

  /**
   * `buildProjects`: nothing when the projects directory is missing;
   * otherwise one project per markdown file, in order, and a detail page
   * for each expandable one.
   */
  method BuildProjects(dirExists: bool, files: seq<string>, parse: string -> ProjectFrontmatter)
    returns (projects: seq<Project>, written: seq<string>)
    ensures projects == if dirExists then ProjectsOf(MdFiles(files), parse) else []
    ensures written == DetailPages(projects)
  {
    projects, written := [], [];
    if !dirExists {
      return;
    }
    var mdFiles := MdFiles(files);
    for i := 0 to |mdFiles|
      invariant projects == ProjectsOf(mdFiles[..i], parse)
      invariant written == DetailPages(projects)
    {
      var file := mdFiles[i];
      var slug := Slug(file);
      var frontmatter := parse(file);
      var project := Project(slug, frontmatter);
      assert mdFiles[..i + 1][..i] == mdFiles[..i];
      DetailPagesSnoc(projects, project);
      projects := projects + [project];
      if frontmatter.expandable {
        written := written + [ProjectPath(slug)];
      }
    }
    assert mdFiles[..|mdFiles|] == mdFiles;
  }

  /** Appending a project appends its page exactly when it is expandable. */
  lemma {:induction false} DetailPagesSnoc(projects: seq<Project>, p: Project)
    ensures DetailPages(projects + [p]) ==
            DetailPages(projects) + (if p.frontmatter.expandable then [ProjectPath(p.slug)] else [])
  {
    if |projects| > 0 {
      assert (projects + [p])[1..] == projects[1..] + [p];
      DetailPagesSnoc(projects[1..], p);
    } else {
      assert projects + [p] == [p];
    }
  }

  // ---------------------------------------------------------------------------
  // Project order and featured projects

  /** `frontmatter.order ?? 999` */
  function OrderKey(p: Project): int {
    p.frontmatter.order.GetOr(DefaultOrder)
  }

  /**
   * The comparator of `sortProjects` does not put `p` after `q`: a smaller
   * order, or the same order and a slug that `localeCompare` does not put
   * after `q`'s.
   */
  function ProjectOrder(slugLe: (string, string) -> bool): (le: (Project, Project) -> bool)
    ensures forall p, q :: OrderKey(p) < OrderKey(q) ==> le(p, q) && !le(q, p)
  {
    (p: Project, q: Project) => OrderKey(p) < OrderKey(q) || (OrderKey(p) == OrderKey(q) && slugLe(p.slug, q.slug))
  }

  /** `sortProjects`: a sorted copy; the argument is a value and is not changed. */
  function SortProjects(projects: seq<Project>, slugLe: (string, string) -> bool): (r: seq<Project>)
    ensures multiset(r) == multiset(projects)
  {
    Sorting.SortPermutes(projects, ProjectOrder(slugLe));
    Sorting.InsertionSort(projects, ProjectOrder(slugLe))
  }

  /** A consistent slug comparison gives a consistent project comparator. */
  lemma ProjectOrderConsistent(slugLe: (string, string) -> bool)
    requires Sorting.TotalPreorder(slugLe)
    ensures Sorting.TotalPreorder(ProjectOrder(slugLe))
  {
    var le := ProjectOrder(slugLe);
    forall p, q, r | le(p, q) && le(q, r)
      ensures le(p, r)
    {
      if OrderKey(p) == OrderKey(q) == OrderKey(r) {
        assert slugLe(p.slug, q.slug) && slugLe(q.slug, r.slug);
      }
    }
    forall p, q
      ensures le(p, q) || le(q, p)
    {
      if OrderKey(p) == OrderKey(q) {
        assert slugLe(p.slug, q.slug) || slugLe(q.slug, p.slug);
      }
    }
  }

  /**
   * `sortProjects` returns a permutation of its input, ascending by order
   * key, and by slug among equal keys.
   */
  lemma SortProjectsSpec(projects: seq<Project>, slugLe: (string, string) -> bool)
    requires Sorting.TotalPreorder(slugLe)
    ensures var r := SortProjects(projects, slugLe);
            multiset(r) == multiset(projects) &&
            forall i, j :: 0 <= i < j < |r| ==>
              OrderKey(r[i]) <= OrderKey(r[j]) && (OrderKey(r[i]) == OrderKey(r[j]) ==> slugLe(r[i].slug, r[j].slug))
  {
    ProjectOrderConsistent(slugLe);
    Sorting.SortPermutes(projects, ProjectOrder(slugLe));
    Sorting.SortSorted(projects, ProjectOrder(slugLe));
    var r := SortProjects(projects, slugLe);
    forall i, j | 0 <= i < j < |r|
      ensures OrderKey(r[i]) <= OrderKey(r[j]) && (OrderKey(r[i]) == OrderKey(r[j]) ==> slugLe(r[i].slug, r[j].slug))
    {
      assert ProjectOrder(slugLe)(r[i], r[j]);
    }
  }

  /** `projects.filter(p => p.frontmatter.featured)`: the featured projects, each as often as in the input. */
  function FilterFeatured(projects: seq<Project>): (r: seq<Project>)
    ensures forall p :: multiset(r)[p] == if p.frontmatter.featured then multiset(projects)[p] else 0
  {
    if |projects| == 0 then []
    else
      assert projects == [projects[0]] + projects[1..];
      if projects[0].frontmatter.featured then [projects[0]] + FilterFeatured(projects[1..])
      else FilterFeatured(projects[1..])
  }

  /** The projects `generateFeaturedProjectsHtml` renders, in the order it renders them. */
  function FeaturedProjects(projects: seq<Project>, slugLe: (string, string) -> bool): (r: seq<Project>)
    ensures forall p :: multiset(r)[p] == if p.frontmatter.featured then multiset(projects)[p] else 0
  {
    SortProjects(FilterFeatured(projects), slugLe)
  }

  /**
   * Exactly the featured projects are shown, each as often as it is in the
   * input, and in `sortProjects` order.
   */
  lemma FeaturedProjectsSpec(projects: seq<Project>, slugLe: (string, string) -> bool)
    requires Sorting.TotalPreorder(slugLe)
    ensures var r := FeaturedProjects(projects, slugLe);
            (forall p :: multiset(r)[p] == if p.frontmatter.featured then multiset(projects)[p] else 0) &&
            (forall p :: p in r <==> p in projects && p.frontmatter.featured) &&
            forall i, j :: 0 <= i < j < |r| ==> ProjectOrder(slugLe)(r[i], r[j])
  {
    var f := FilterFeatured(projects);
    SortProjectsSpec(f, slugLe);
    ProjectOrderConsistent(slugLe);
    Sorting.SortSorted(f, ProjectOrder(slugLe));
    var r := FeaturedProjects(projects, slugLe);
    forall p
      ensures p in r <==> p in projects && p.frontmatter.featured
    {
      assert p in r <==> multiset(r)[p] > 0;
      assert p in projects <==> multiset(projects)[p] > 0;
    }
  }

  // ---------------------------------------------------------------------------
  // Recent posts and the blog index

  /** The comparator `b.date - a.date` does not put `p` after `q`: `p` is at least as new. */
  function NewerOrSame(p: Post, q: Post): bool {
    p.frontmatter.date >= q.frontmatter.date
  }

  /**
   * The stable newest-first order both post lists are sorted into: a
   * permutation of the posts whose dates never increase.
   */
  function NewestFirst(posts: seq<Post>): (r: seq<Post>)
    ensures multiset(r) == multiset(posts)
    ensures forall i, j :: 0 <= i < j < |r| ==> r[i].frontmatter.date >= r[j].frontmatter.date
  {
    Sorting.SortPermutes(posts, NewerOrSame);
    assert Sorting.TotalPreorder(NewerOrSame);
    Sorting.SortSorted(posts, NewerOrSame);
    var r := Sorting.InsertionSort(posts, NewerOrSame);
    assert forall i, j :: 0 <= i < j < |r| ==> NewerOrSame(r[i], r[j]);
    r
  }

  /** Where `slice(0, limit)` ends on a list of `n` elements. */
  function SliceEnd(n: nat, limit: int): (end: nat)
    ensures end <= n
    ensures limit >= 0 ==> end == if limit < n then limit else n
    ensures limit < 0 ==> end == if n + limit > 0 then n + limit else 0
  {
    if limit < 0 then (if n + limit > 0 then n + limit else 0)
    else if limit < n then limit else n
  }

  /**
   * The posts `generateRecentPostsHtml` lists: the caller's array is sorted
   * in place, newest first, and its first `limit` posts are taken.
   */
  method RecentPosts(posts: array<Post>, limit: int) returns (recent: seq<Post>)
    modifies posts
    ensures posts[..] == NewestFirst(old(posts[..]))
    ensures recent == posts[..SliceEnd(posts.Length, limit)]
  {
    Sorting.SortInPlace(posts, NewerOrSame);
    recent := posts[..SliceEnd(posts.Length, limit)];
  }

  /**
   * The recent posts are at most `limit` (3 by default), newest first, and
   * no post left out is newer than one listed.
   */
  lemma RecentPostsSpec(posts: seq<Post>, limit: int)
    ensures var sorted := NewestFirst(posts);
            var recent := sorted[..SliceEnd(|posts|, limit)];
            (limit >= 0 ==> |recent| <= limit) &&
            |sorted[..SliceEnd(|posts|, DefaultRecentLimit)]| <= 3 &&
            (forall i, j :: 0 <= i < j < |recent| ==> recent[i].frontmatter.date >= recent[j].frontmatter.date) &&
            forall i, j :: 0 <= i < |recent| <= j < |sorted| ==> recent[i].frontmatter.date >= sorted[j].frontmatter.date
  {
  }

  /** The sort of `generateBlogIndexHtml`: the caller's array, newest first, is the listing. */
  method BlogIndexPosts(posts: array<Post>) returns (listed: seq<Post>)
    modifies posts
    ensures posts[..] == NewestFirst(old(posts[..]))
    ensures listed == posts[..]
  {
    Sorting.SortInPlace(posts, NewerOrSame);
    listed := posts[..];
  }

  // ---------------------------------------------------------------------------
  // Project cards

  /** A `github` value is used only when it is a non-empty string (JavaScript truthiness). */
  predicate HasGithub(frontmatter: ProjectFrontmatter) {
    frontmatter.github.Some? && frontmatter.github.value != ""
  }

  function DetailLink(slug: string): string {
    "<a href=\"projects/" + slug + ".html\">Read more &rarr;</a>"
  }

  function GithubLink(url: string): string {
    "<a href=\"" + url + "\" target=\"_blank\" rel=\"noopener noreferrer\">View on GitHub &rarr;</a>"
  }

  function LinksDiv(link: string): string {
    "<div class=\"project-card-links\">" + link + "</div>"
  }

  /**
   * The link part of `generateProjectCard`: the detail page of an expandable
   * project, even when it has a GitHub address; otherwise its GitHub page;
   * otherwise no link and no links `div` at all.
   */
  method CardLinks(project: Project) returns (html: string)
    ensures project.frontmatter.expandable ==> html == LinksDiv(DetailLink(project.slug))
    ensures !project.frontmatter.expandable && HasGithub(project.frontmatter) ==>
              html == LinksDiv(GithubLink(project.frontmatter.github.value))
    ensures html == "" <==> !project.frontmatter.expandable && !HasGithub(project.frontmatter)
  {
    var linkHtml := "";
    if project.frontmatter.expandable {
      linkHtml := DetailLink(project.slug);
    } else if project.frontmatter.github.Some? && project.frontmatter.github.value != "" {
      linkHtml := GithubLink(project.frontmatter.github.value);
    }
    if linkHtml != "" {
      html := LinksDiv(linkHtml);
    } else {
      html := "";
    }
  }

  /**
   * `generateProjectCard`: the title, the description as rendered by
   * `marked.parseInline` (a parameter here) and the link part.
   */
  method ProjectCard(project: Project, parseInline: string -> string) returns (card: string)
    ensures exists links ::
              (links == "" <==> !project.frontmatter.expandable && !HasGithub(project.frontmatter)) &&
              card == "        <article class=\"project-card\">\n          <h3>" + project.frontmatter.title +
                      "</h3>\n          <p>" + parseInline(project.frontmatter.description) +
                      "</p>\n          " + links + "\n        </article>"
  {
    var links := CardLinks(project);
    card := "        <article class=\"project-card\">\n          <h3>" + project.frontmatter.title +
            "</h3>\n          <p>" + parseInline(project.frontmatter.description) +
            "</p>\n          " + links + "\n        </article>";
  }

  // ---------------------------------------------------------------------------
  // The home page

  /**
   * `generateIndexHtml`: the first recent-posts marker of the template is
   * replaced, then the first featured-projects marker of the result.
   */
  method GenerateIndexHtml(template: string, recentHtml: string, featuredHtml: string) returns (index: string)
    ensures index == ReplaceFirst(ReplaceFirst(template, RecentPostsMarker, recentHtml), FeaturedProjectsMarker, featuredHtml)
  {
    var indexContent := template;
    indexContent := ReplaceFirst(indexContent, RecentPostsMarker, recentHtml);
    indexContent := ReplaceFirst(indexContent, FeaturedProjectsMarker, featuredHtml);
    index := indexContent;
  }

  /** A template with neither marker is copied unchanged. */
  lemma IndexWithoutMarkers(template: string, recentHtml: string, featuredHtml: string)
    requires !Contains(template, RecentPostsMarker) && !Contains(template, FeaturedProjectsMarker)
    ensures ReplaceFirst(ReplaceFirst(template, RecentPostsMarker, recentHtml), FeaturedProjectsMarker, featuredHtml) == template
  {
  }

  /** Neither marker can overlap a copy of itself: its `<` is its first character only. */
  lemma MarkersBorderless()
    ensures Borderless(RecentPostsMarker) && Borderless(FeaturedProjectsMarker)
  {
  }

  /** No proper suffix of `p` begins like `p`, because its first character does not recur. */
  predicate Borderless(p: string) {
    |p| > 0 && forall k :: 0 < k < |p| ==> p[k] != p[0]
  }

  /**
   * With a recent-posts marker after a marker-free start, and a
   * featured-projects marker after text that is marker-free once the posts
   * are in, the page is the template with each marker replaced in place.
   */
  lemma IndexReplacesBothMarkers(before: string, middle: string, after: string, recentHtml: string, featuredHtml: string)
    requires !Contains(before, RecentPostsMarker)
    requires !Contains(before + recentHtml + middle, FeaturedProjectsMarker)
    ensures var template := before + RecentPostsMarker + middle + FeaturedProjectsMarker + after;
            ReplaceFirst(ReplaceFirst(template, RecentPostsMarker, recentHtml), FeaturedProjectsMarker, featuredHtml)
            == before + recentHtml + middle + featuredHtml + after
  {
    MarkersBorderless();
    ReplaceTwice(RecentPostsMarker, FeaturedProjectsMarker, before, middle, after, recentHtml, featuredHtml);
  }

  /** `ReplaceFirst` with `p` first occurring at `|prefix|` of `prefix + p + rest`. */
  lemma ReplaceAfter(prefix: string, p: string, rest: string, rep: string)
    requires !Contains(prefix, p) && Borderless(p)
    ensures ReplaceFirst(prefix + p + rest, p, rep) == prefix + rep + rest
  {
    var s := prefix + p + rest;
    FirstOccurrenceAfter(prefix, p, rest);
    ReplaceFirstAt(s, p, rep, |prefix|);
    assert s[..|prefix|] == prefix && s[|prefix| + |p|..] == rest;
  }

  /** Two replacements in turn, each of a pattern that first occurs where expected. */
  lemma ReplaceTwice(m1: string, m2: string, before: string, middle: string, after: string, rep1: string, rep2: string)
    requires Borderless(m1) && Borderless(m2)
    requires !Contains(before, m1)
    requires !Contains(before + rep1 + middle, m2)
    ensures ReplaceFirst(ReplaceFirst(before + m1 + middle + m2 + after, m1, rep1), m2, rep2)
            == before + rep1 + middle + rep2 + after
  {
    var t, head := before + m1 + middle + m2 + after, before + rep1 + middle;
    assert ReplaceFirst(t, m1, rep1) == head + m2 + after by {
      var rest := middle + m2 + after;
      assert t == before + m1 + rest;
      ReplaceAfter(before, m1, rest, rep1);
      assert before + rep1 + rest == head + m2 + after;
    }
    ReplaceAfter(head, m2, after, rep2);
  }

  /**
   * The second replacement sees the first one's output: a post that
   * mentions the featured-projects marker takes the projects instead of the
   * template's own marker.
   */
  lemma FeaturedMarkerInRecentPosts(featuredHtml: string)
    ensures ReplaceFirst(ReplaceFirst(RecentPostsMarker + FeaturedProjectsMarker, RecentPostsMarker, FeaturedProjectsMarker),
                         FeaturedProjectsMarker, featuredHtml)
            == featuredHtml + FeaturedProjectsMarker
  {
    ReplaceIntoMarker(RecentPostsMarker, FeaturedProjectsMarker, featuredHtml);
  }

  /** Replacing `m1` by `m2` in `m1 + m2`, and then `m2` by `rep`, replaces the inserted `m2`. */
  lemma ReplaceIntoMarker(m1: string, m2: string, rep: string)
    requires |m1| > 0 && |m2| > 0
    ensures ReplaceFirst(ReplaceFirst(m1 + m2, m1, m2), m2, rep) == rep + m2
  {
    ReplaceAtStart(m1, m2, m2);
    ReplaceAtStart(m2, m2, rep);
  }

  /** A pattern at the very start is the first occurrence. */
  lemma ReplaceAtStart(p: string, rest: string, rep: string)
    requires |p| > 0
    ensures ReplaceFirst(p + rest, p, rep) == rep + rest
  {
    var s := p + rest;
    assert OccursAt(s, p, 0);
    ReplaceFirstAt(s, p, rep, 0);
    assert s[..0] == [] && s[|p|..] == rest;
  }

  /** A borderless pattern first occurs right after a prefix that does not contain it. */
  lemma FirstOccurrenceAfter(prefix: string, p: string, rest: string)
    requires !Contains(prefix, p) && Borderless(p)
    ensures var s := prefix + p + rest;
            OccursAt(s, p, |prefix|) && forall j: nat :: j < |prefix| ==> !OccursAt(s, p, j)
  {
    var s := prefix + p + rest;
    assert s[|prefix|..|prefix| + |p|] == p;
    forall j: nat | j < |prefix|
      ensures !OccursAt(s, p, j)
    {
      if j + |p| <= |prefix| {
        assert s[j..j + |p|] == prefix[j..j + |p|];
        assert !OccursAt(prefix, p, j);
      } else {
        var d := |prefix| - j;
        assert s[j + d] == p[0] != p[d];
      }
    }
  }
}
