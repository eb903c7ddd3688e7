# Platonic solids renderer and site build, modelled in Dafny

This project models three pieces of a personal web site.

- The WebGPU animation `src/animations/platonic-solids.ts`. It shows five
  rotating Platonic solids. Each solid is drawn as a small sphere at every
  vertex and an open cylinder along every edge. Modelled here:
  - the sphere and cylinder meshes and their 16-bit index buffers;
  - the five vertex and edge tables;
  - the seeded generator that draws each solid's rotation axis;
  - the per-solid instance buffers;
  - the 4×4 matrix helpers;
  - the 40-float uniform block written for every solid in every frame.
- The site build `scripts/build.ts`. Modelled here:
  - which markdown files become posts and projects, and under which slug;
  - which pages are written;
  - the project order, the featured projects and the recent posts;
  - the link of a project card;
  - the two placeholder replacements in the home page;
  - watch mode's `.gitignore` parsing and its `isIgnored` test.
- The development server `scripts/serve.ts`. The model covers how a request
  path maps onto a file, and which status and body come back.

Every model is stated in Dafny, as follows.

- **Values**: datatypes, for posts, projects, meshes and responses.
- **The source's loops** (mesh generation, the matrix product, the axis loop,
  the uniform packing, the build loops, the `.gitignore` parse): methods with
  loop invariants. Each is proved equal to a specification function.
- **The random generator**: a class whose `seed` field `rand` updates.
- **`Array.prototype.sort` on the caller's array**: an in-place insertion sort
  on an `array`.

The properties are lemmas about those specification functions.

## Module layout

| file | module | what it holds |
|---|---|---|
| wrappers.dfy | Wrappers | `Option` |
| strings.dfy | Strings | the JavaScript string operations the build uses: `startsWith`, `endsWith`, `includes`, `indexOf`, `replace` of the first occurrence, `split`, `trim` |
| sorting.dfy | Sorting | the stable comparator sort and its in-place array form |
| build.dfy | Build | the build script's selection, ordering and substitution rules |
| gitignore.dfy | Gitignore | `.gitignore` parsing and `isIgnored` |
| serve.dfy | Serve | the `fetch` handler |
| random.dfy | Random | `rand` and the `axes` loop |
| matrix.dfy | Matrix | `mulMat4`, `translate`, `rotateAxis`, `perspective` |
| geometry.dfy | Geometry | `createSphere`, `createCylinder`, `Uint16Array` storage |
| catalog.dfy | Catalog | the five vertex and edge tables, kept exact in ℤ[φ] |
| render.dfy | Render | `solidData` flattening and the per-frame uniform blocks |

## Model

| member | source | states |
|---|---|---|
| Strings.IndexOf | scripts/build.ts:446 | the result is present exactly when the pattern occurs; it is an occurrence, and no occurrence comes earlier |
| Strings.ReplaceFirst | scripts/build.ts:446 | a string without the pattern is returned unchanged |
| Strings.ReplaceFirstAt | scripts/build.ts:446 | with the first occurrence at i, the result is the text before i, then the replacement, then the text after the occurrence; later occurrences are untouched |
| Strings.Split | scripts/build.ts:543 | there is always at least one piece, no piece contains the separator, and joining the pieces with the separator gives the input back |
| Strings.SplitJoin | scripts/build.ts:554 | splitting a join of separator-free pieces gives back exactly those pieces |
| Strings.Trim | scripts/build.ts:544 | the result is a contiguous slice of the input, with only whitespace on either side of it, and neither of its ends is whitespace |
| Strings.TrimIdempotent | scripts/build.ts:544 | trimming twice is trimming once |
| Sorting.InsertionSort | scripts/build.ts:290 | the stable sort has the input's length |
| Sorting.SortPermutes | scripts/build.ts:290 | the sort's output is a permutation of its input |
| Sorting.SortSorted | scripts/build.ts:294-295 | with a total, transitive comparator, every element is `le` every later one |
| Sorting.FileInto | scripts/build.ts:376 | one outer pass files `a[i]` into the sorted prefix and leaves the rest of the array unchanged |
| Sorting.SortInPlace | scripts/build.ts:376 | sorting the caller's array leaves in it exactly the stable sorted order of its old contents |
| Build.MdFiles | scripts/build.ts:403 | exactly the names ending in `.md` are kept, and no more than the input holds |
| Build.MdFilesAppend | scripts/build.ts:403 | the filter keeps directory order: two runs of names give their markdown files in turn |
| Build.Slug | scripts/build.ts:408 | `file.replace(".md", "")` removes the first `.md` and nothing else: a name without `.md` is kept, and otherwise putting `.md` back where it was first found gives the name |
| Build.SlugDropsExtension | scripts/build.ts:408 | when a name's only `.md` is its extension, the slug is the name without it |
| Build.SlugRemovesFirstOccurrence | scripts/build.ts:494 | example: `a.md.md` gets the slug `a.md`: the first `.md` is removed, not the extension |
| Build.PagePathsInjective | scripts/build.ts:510 | different slugs give different post pages and different project pages |
| Build.PostsOfAt | scripts/build.ts:505-506 | post i has file i's slug and front matter |
| Build.BuildPosts | scripts/build.ts:488-513 | one post per markdown file in directory order, and one page written per post, at that post's path |
| Build.DetailPageIffExpandable | scripts/build.ts:423-428 | a detail page is written for a slug exactly when some project with that slug is expandable |
| Build.ProjectsOfAt | scripts/build.ts:419-420 | project i has file i's slug and front matter |
| Build.DetailPagesSnoc | scripts/build.ts:423-428 | one more project adds its page exactly when it is expandable |
| Build.BuildProjects | scripts/build.ts:387-438 | no projects and no pages when the directory is missing; otherwise one project per markdown file in order, and exactly the detail pages of the expandable ones |
| Build.ProjectOrder | scripts/build.ts:290-296 | the comparator puts a smaller `order` (999 when missing) strictly first; equal orders fall back to the slug comparison |
| Build.ProjectOrderConsistent | scripts/build.ts:290-296 | a consistent slug comparison makes the project comparator total and transitive |
| Build.SortProjects | scripts/build.ts:289-297 | `[...projects].sort(...)` returns a permutation of the projects |
| Build.SortProjectsSpec | scripts/build.ts:289-297 | the result is a permutation of the input, ascending by `order` (999 when missing), and by slug among equal orders |
| Build.FilterFeatured | scripts/build.ts:370 | every featured project is kept as often as it occurs, and no other project is kept |
| Build.FeaturedProjects | scripts/build.ts:370 | the result holds each featured project as often as the input does, and nothing else |
| Build.FeaturedProjectsSpec | scripts/build.ts:369-372 | exactly the featured projects appear, each as often as in the input, in `sortProjects` order |
| Build.NewestFirst | scripts/build.ts:376 | the date comparator sorts the posts into a permutation whose dates never increase |
| Build.RecentPosts | scripts/build.ts:374-377 | the caller's array is left sorted newest first, and the result is its first `limit` posts |
| Build.RecentPostsSpec | scripts/build.ts:374-377 | at most `limit` posts (3 by default), newest first, and no post left out is newer than one listed |
| Build.BlogIndexPosts | scripts/build.ts:120-122 | the caller's array is left sorted newest first, and that is the listing |
| Build.CardLinks | scripts/build.ts:270-285 | an expandable project links to its detail page, even with a GitHub address; otherwise a non-empty GitHub address links there; otherwise there is no link and no links `div` |
| Build.ProjectCard | scripts/build.ts:267-287 | the card is the title, the rendered description and a link part, which is empty exactly when the project has no link |
| Build.GenerateIndexHtml | scripts/build.ts:440-454 | the first recent-posts marker is replaced, and then the first featured-projects marker of that result |
| Build.IndexWithoutMarkers | scripts/build.ts:446-450 | a template with neither marker is left unchanged |
| Build.MarkersBorderless | scripts/build.ts:446-450 | neither marker can overlap a copy of itself |
| Build.IndexReplacesBothMarkers | scripts/build.ts:446-450 | when each marker first occurs where expected, each is replaced in place and the rest of the template is kept |
| Build.FeaturedMarkerInRecentPosts | scripts/build.ts:450 | the second replacement sees the first one's output: a featured-projects marker inside the recent posts takes the projects, and the template's own marker stays |
| Gitignore.StripTrailingSlash | scripts/build.ts:546 | at most one `/` is removed, and only at the very end |
| Gitignore.PatternOf | scripts/build.ts:544-546 | a line gives a pattern exactly when it trims to a non-empty string not starting with `#`; the pattern is the trimmed line with at most its one trailing `/` taken off |
| Gitignore.Patterns | scripts/build.ts:543-548 | there are never more patterns than lines |
| Gitignore.PatternsAppend | scripts/build.ts:543 | patterns keep file order: two runs of lines give their patterns in turn |
| Gitignore.PatternsMembership | scripts/build.ts:543-548 | a string is a pattern exactly when some line yields it |
| Gitignore.PatternShape | scripts/build.ts:544-546 | a line is kept exactly when it trims to a non-empty string not starting with `#`; its pattern is the trimmed line less at most one trailing `/`; only a line that trims to `/` gives the empty pattern |
| Gitignore.ParseLines | scripts/build.ts:543-548 | the `forEach` over the lines pushes exactly the patterns of the lines, in order |
| Gitignore.ParseGitignore | scripts/build.ts:540-551 | no patterns when the file cannot be read; otherwise the patterns of its lines split at newlines |
| Gitignore.IsIgnored | scripts/build.ts:553-559 | a path is ignored exactly when some pattern is one of its `/` parts or a prefix of it |
| Gitignore.NothingIgnoredWithoutPatterns | scripts/build.ts:553-559 | with no patterns, nothing is ignored |
| Gitignore.SegmentIgnored | scripts/build.ts:557 | a pattern that names one directory of a path ignores that path, at any depth |
| Gitignore.PrefixMatchIsTextual | scripts/build.ts:557 | the prefix test is textual: `dist` also ignores `distance.txt` |
| Gitignore.EmptyPatternIgnoresAll | scripts/build.ts:557 | an empty pattern ignores every path |
| Gitignore.SlashLineYieldsEmptyPattern | scripts/build.ts:546 | a line holding just `/` yields the empty pattern |
| Serve.ResolvePath | scripts/serve.ts:20-25 | the joined path, or that path plus `.html`; the latter exactly when the path has no `.` and the synchronous existence test fails |
| Serve.Handle | scripts/serve.ts:27-39 | status 200 with the file exactly when the resolved file exists; otherwise 404, with `404.html` if it exists, else the text "Not Found" |
| Serve.RootServesIndex | scripts/serve.ts:15-17 | `/` looks up `./dist/index.html` and serves it when it exists |
| Serve.DottedPathNeverRewritten | scripts/serve.ts:23 | a path containing a dot is looked up as it is, whatever the file system says |
| Serve.ExistsSyncDoesNotRetry | scripts/serve.ts:23-29 | when the synchronous test finds the path but the served-file test does not, the answer is 404 and no `.html` variant is tried |
| Random.SpacingBinade | src/animations/platonic-solids.ts:84 | the spacing of the doubles around an integer x is a power of two u with x < 2⁵³·u; it is 1 below 2⁵³, and above that 2⁵²·u ≤ x, so x lies in its own binade |
| Random.NearestMultipleIsNearest | src/animations/platonic-solids.ts:84 | the chosen multiple of u is at most u/2 from x, and of two equally near the even multiple is taken |
| Random.ToDoubleIsNearest | src/animations/platonic-solids.ts:84 | `ToDouble` gives a double (a multiple of the spacing) nearest to x, ties to even, and is the identity below 2⁵³ |
| Random.Next | src/animations/platonic-solids.ts:84 | the new seed, the product and then the sum each rounded to a double and the low 31 bits kept, lies in [0, 0x7fffffff] |
| Random.ExactNext | src/animations/platonic-solids.ts:84 | the textbook step: a value in [0, 0x7fffffff] congruent to seed · 1103515245 + 12345 modulo 2³¹ |
| Random.NextExactWhileSmall | src/animations/platonic-solids.ts:84 | while seed · 1103515245 + 12345 is below 2⁵³ the source's step is the textbook step |
| Random.SeedAfter | src/animations/platonic-solids.ts:84 | after at least one call, the seed is in range |
| Random.SeedAfterAdd | src/animations/platonic-solids.ts:84 | k calls followed by m more calls are k + m calls |
| Random.ValueInUnit | src/animations/platonic-solids.ts:84 | every number drawn lies in [0, 1] |
| Random.InitialSequence | src/animations/platonic-solids.ts:83-84 | example: from 12345 the first seed, 1406932606, is the textbook one; the second is 654583808, where the textbook step gives 654583775 |
| Random.Rng.constructor | src/animations/platonic-solids.ts:83 | the generator starts at seed 12345, with no calls made yet |
| Random.Rng.Rand | src/animations/platonic-solids.ts:84 | advances the seed by one step, keeps it in range, and returns it scaled into [0, 1] |
| Random.AxisFrom | src/animations/platonic-solids.ts:86 | an axis has three coordinates |
| Random.AxisIsUnit | src/animations/platonic-solids.ts:86 | with a sine and cosine satisfying sin² + cos² = 1, every axis drawn has length 1, whatever the two numbers drawn |
| Random.AxisAtIsUnit | src/animations/platonic-solids.ts:85-86 | the same for axis i drawn from any seed |
| Random.AcosArgumentInDomain | src/animations/platonic-solids.ts:86 | the argument given to `acos` always lies in [−1, 1] |
| Random.BuildAxes | src/animations/platonic-solids.ts:85-86 | five axes, axis i built from calls 2i+1 and 2i+2, exactly ten calls in all |
| Matrix.MulMat4 | src/animations/platonic-solids.ts:111 | the nested loops fill every entry of the column-major product |
| Matrix.Mul | src/animations/platonic-solids.ts:111 | the column-major product; its entries are stated by Matrix.MulAt |
| Matrix.MulAt | src/animations/platonic-solids.ts:111 | entry (row, col) of the product is Σₖ a[k·4+row] · b[col·4+k] |
| Matrix.IdentityAt | src/animations/platonic-solids.ts:113 | the identity has ones on the diagonal and zeros elsewhere |
| Matrix.MulIdentity | src/animations/platonic-solids.ts:111 | the identity is neutral on both sides of the product |
| Matrix.MulAssociative | src/animations/platonic-solids.ts:123 | the product is associative, so proj · (view · model) is (proj · view) · model |
| Matrix.Translate | src/animations/platonic-solids.ts:113 | the translation matrix; its entries are stated by Matrix.TranslateAt |
| Matrix.TranslateAt | src/animations/platonic-solids.ts:113 | the translation is the identity, with the offsets in the last column |
| Matrix.TranslateCompose | src/animations/platonic-solids.ts:113 | translate(a) · translate(b) = translate(a + b), and translate(0) is the identity |
| Matrix.TranslateMovesPoint | src/animations/platonic-solids.ts:113 | a translation moves a point by w times the offset |
| Matrix.RotateAxis | src/animations/platonic-solids.ts:114 | `rotateAxis` with c = cos(angle) and s = sin(angle); what it does is stated by Matrix.RodriguesForm, RotationPreservesLength and RotationFixesAxis |
| Matrix.RotateZeroAngle | src/animations/platonic-solids.ts:114 | with cos 1 and sin 0, the rotation is the identity |
| Matrix.ApplyRotation | src/animations/platonic-solids.ts:114 | applying the rotation gives its three rows, and w is unchanged |
| Matrix.RodriguesForm | src/animations/platonic-solids.ts:114 | each row has the Rodrigues form c·v + s·(axis × v) + (1 − c)(axis · v)·axis |
| Matrix.RotationPreservesLength | src/animations/platonic-solids.ts:114 | for a unit axis with c² + s² = 1, the rotation keeps the length of every vector, and keeps w |
| Matrix.RotationFixesAxis | src/animations/platonic-solids.ts:114 | a rotation about a unit axis leaves that axis fixed |
| Matrix.PerspectiveAsWritten | src/animations/platonic-solids.ts:112 | `perspective` as written, with f = 1 / tan(fov / 2); its depths are stated by Matrix.PerspectiveAsWrittenDepths |
| Matrix.PerspectiveAsWrittenDepths | src/animations/platonic-solids.ts:112 | the matrix as written sends the near plane to clip depth −w and the far plane to +w |
| Matrix.PerspectiveAsWrittenClipsInsideFrustum | src/animations/platonic-solids.ts:121 | with near 0.1 and far 100, a point at distance 0.15, which lies inside the frustum, gets a negative clip depth |
| Matrix.Perspective | src/animations/platonic-solids.ts:112 | the corrected `perspective`; its depths are stated by Matrix.PerspectiveDepths and PerspectiveKeepsFrustum |
| Matrix.PerspectiveDepths | src/animations/platonic-solids.ts:112 | the corrected matrix sends the near plane to depth 0 and the far plane to depth w |
| Matrix.PerspectiveKeepsFrustum | src/animations/platonic-solids.ts:112 | with the corrected matrix, every depth between near and far lies in [0, w], and it grows with distance |
| Geometry.ToUint16 | src/animations/platonic-solids.ts:44 | a value in [0, 65536) is stored exactly; any other value is stored modulo 2¹⁶ |
| Geometry.ToUint16ArrayExact | src/animations/platonic-solids.ts:44 | a list of values below 65536 is stored without change |
| Geometry.SphereVertexValue | src/animations/platonic-solids.ts:31-35 | the vertex at (lat, lon) is (cos φ · sin θ, cos θ, sin φ · sin θ) |
| Geometry.SphereGridLength | src/animations/platonic-solids.ts:30-37 | `rows` latitude rows hold 3 · rows · (n + 1) floats |
| Geometry.QuadGridLength | src/animations/platonic-solids.ts:38-43 | `rows` rows of quads hold 6 · rows · n indices |
| Geometry.SphereVertices | src/animations/platonic-solids.ts:30-37 | the nested vertex loops produce exactly the sphere grid, row by row |
| Geometry.SphereIndices | src/animations/platonic-solids.ts:38-43 | the nested index loops produce exactly the quad grid, two triangles per quad |
| Geometry.CreateSphere | src/animations/platonic-solids.ts:28-45 | the mesh is the sphere grid, together with the quad grid stored as a `Uint16Array` |
| Geometry.SphereGridAt | src/animations/platonic-solids.ts:30-37 | vertex lat · (n + 1) + lon of the buffer is the sphere vertex at (lat, lon) |
| Geometry.QuadGridAt | src/animations/platonic-solids.ts:38-43 | quad lat · n + lon of the index buffer is (a, b, a+1, b, b+1, a+1), with a = lat(n+1) + lon and b = a + n + 1 |
| Geometry.QuadGridBounds | src/animations/platonic-solids.ts:38-43 | every index of `rows` quad rows names one of the (rows + 1)(n + 1) vertices |
| Geometry.SphereCounts | src/animations/platonic-solids.ts:30-43 | 3(n+1)² floats and 6n² indices, and every index is below (n+1)² |
| Geometry.SphereIndicesFitUint16 | src/animations/platonic-solids.ts:44 | for n ≤ 255, storing the indices in a `Uint16Array` changes none of them |
| Geometry.RendererSphere | src/animations/platonic-solids.ts:60 | the renderer's 10-segment sphere has 121 vertices and 600 indices, each below 121 |
| Geometry.CylinderPair | src/animations/platonic-solids.ts:51 | each step pushes a y = 0 point and a y = 1 point at the same angle |
| Geometry.CylinderIndices | src/animations/platonic-solids.ts:53-56 | k quads give 6k indices |
| Geometry.CreateCylinder | src/animations/platonic-solids.ts:47-58 | the mesh is the n + 1 vertex pairs, together with the 6n indices stored as a `Uint16Array` |
| Geometry.CylinderIndexBounds | src/animations/platonic-solids.ts:53-56 | every index is below 2(k + 1) |
| Geometry.CylinderVertsAt | src/animations/platonic-solids.ts:49-52 | floats 6i..6i+5 are the i-th vertex pair |
| Geometry.CylinderShape | src/animations/platonic-solids.ts:49-56 | 2(n+1) vertices and 6n indices, each below 2(n+1); vertex 2i is at y = 0 and vertex 2i+1 at y = 1, at the same angle |
| Geometry.CylinderIndicesFitUint16 | src/animations/platonic-solids.ts:57 | for n < 32767, storing the indices in a `Uint16Array` changes none of them |
| Geometry.RendererCylinder | src/animations/platonic-solids.ts:60 | the renderer's 8-segment cylinder has 18 vertices and 48 indices |
| Catalog.InvPhiIsInverse | src/animations/platonic-solids.ts:70 | `ip` really is 1/φ: φ · (φ − 1) = 1 |
| Catalog.TetrahedronShape | src/animations/platonic-solids.ts:71-72 | 4 vertices and 6 edges; each edge joins two different, existing vertices |
| Catalog.CubeShape | src/animations/platonic-solids.ts:73-74 | 8 vertices and 12 edges, all valid |
| Catalog.OctahedronShape | src/animations/platonic-solids.ts:75-76 | 6 vertices and 12 edges, all valid |
| Catalog.DodecahedronShape | src/animations/platonic-solids.ts:77-78 | 20 vertices and 30 edges, all valid |
| Catalog.IcosahedronShape | src/animations/platonic-solids.ts:79-80 | 12 vertices and 30 edges, all valid |
| Catalog.TetrahedronNoRepeat | src/animations/platonic-solids.ts:72 | no edge of the tetrahedron is listed twice, in either direction |
| Catalog.CubeNoRepeat | src/animations/platonic-solids.ts:74 | no edge of the cube is listed twice |
| Catalog.OctahedronNoRepeat | src/animations/platonic-solids.ts:76 | no edge of the octahedron is listed twice |
| Catalog.DodecahedronNoRepeat | src/animations/platonic-solids.ts:78 | no edge of the dodecahedron is listed twice |
| Catalog.IcosahedronNoRepeat | src/animations/platonic-solids.ts:80 | no edge of the icosahedron is listed twice |
| Catalog.SolidsValid | src/animations/platonic-solids.ts:81 | all five solids of `solids` have valid edge tables |
| Render.VertData | src/animations/platonic-solids.ts:97 | `s.v.flat()` has three floats per vertex, and floats 3i..3i+2 are vertex i |
| Render.EdgeData | src/animations/platonic-solids.ts:97 | the edge buffer has six floats per edge, and floats 6k..6k+5 are v[a] ++ v[b] for the k-th edge (a, b) |
| Render.MakeSolidData | src/animations/platonic-solids.ts:96-101 | one element of `solidData`; its layout is stated by Render.InstanceLayout |
| Render.InstanceLayout | src/animations/platonic-solids.ts:93-100 | the buffers' byte sizes agree with the 12-byte and 24-byte instance strides and the counts; their contents are the vertices and the edges' endpoints |
| Render.AllSolidsFlatten | src/animations/platonic-solids.ts:96-101 | every solid of the catalog can be flattened |
| Render.UniformBlock | src/animations/platonic-solids.ts:123 | 40 floats: mvp at 0–15, modelView at 16–31, near colour at 32–35, far colour at 36–39; 160 bytes |
| Render.SetAt | src/animations/platonic-solids.ts:123 | `data.set(src, offset)` replaces the elements from the offset on and changes nothing else |
| Render.PackUniforms | src/animations/platonic-solids.ts:123 | the four `data.set` calls produce exactly the uniform block |
| Render.ModelView | src/animations/platonic-solids.ts:121-123 | `view · (translate(x, 0, 0) · rotateAxis(axis, angle))`, with `view = translate(0, 0, −8)`; stated by Render.SolidCentre and Render.DrawnAxisRotates |
| Render.SolidRow | src/animations/platonic-solids.ts:122-123 | the solids are 2.5 apart, solid 2 is at x = 0, and the ends are at −5 and 5 |
| Render.SolidCentre | src/animations/platonic-solids.ts:121-123 | whatever its rotation, solid i's model-view matrix takes the origin to (x_i, 0, −8) |
| Render.DrawnAxisRotates | src/animations/platonic-solids.ts:114 | with a true sine and cosine, `rotateAxis` about an axis drawn at line 86 keeps every vector's length and leaves the axis in place |
| Render.SolidBlock | src/animations/platonic-solids.ts:123 | the block of solid i at time t, mvp = proj · modelView; its layout is stated by Render.UniformBlock |
| Render.SolidUniforms | src/animations/platonic-solids.ts:123 | one loop body computes solid i's block from the translated rotation, the view and the projection |
| Render.FrameAt | src/animations/platonic-solids.ts:123 | entry i of a frame is block i |
| Render.FrameUniforms | src/animations/platonic-solids.ts:123 | the frame loop writes one block per solid, in index order |
| Render.FrameBlocks | src/animations/platonic-solids.ts:123 | a frame has five blocks, and block i is solid i's |

## Left out

- I/O. The model leaves out:
  - reading directories and files, writing pages, `mkdir` and `cp`;
  - `copyStaticFiles`;
  - the projects index page, written whenever the projects directory exists.

  A directory listing, the existence of the projects directory and the
  `.gitignore` contents (`None` when reading fails) are parameters instead.
- `gray-matter`, `marked` and `marked.parseInline` are foreign libraries, so
  they are parameters (`parse`, `parseInline`).
- The page templates (`generatePostHtml`, `generateProjectHtml`, the blog and
  projects index pages, the recent-post items) are fixed text around the
  values, so they are not modelled. Only the project card and the home-page
  markers are.
- `formatDate` depends on the locale, so it is not modelled.
- Dates are integer timestamps. Parsing with `new Date`, and the NaN an
  invalid date gives, are not modelled.
- `localeCompare` depends on the locale. It is the abstract relation
  `slugLe`, assumed total and transitive where the lemmas need it.
- `String.prototype.replace` treats `$&` and `$n` in the replacement text as
  special patterns. The model treats the replacement text as plain text.
- `path.join` also normalises its result. In the model it is plain
  concatenation, so `/` resolves to `./dist/index.html`, not to
  `dist/index.html`.
- Watch mode's `fs.watch`, the 100 ms debounce and the `SIGINT` handler are
  host callbacks and timers, so they are not modelled. What remains is the
  `isIgnored` test the callback applies.
- The server's Bun `serve`, URL parsing and `Response` objects are not
  modelled. The handler returns a status and a body, and the two existence
  tests are independent predicates.
- The WebGPU plumbing is foreign GPU and DOM calls, so it is not modelled.
  This covers:
  - the adapter, device and context;
  - the buffers, pipelines and bind groups;
  - the depth texture;
  - the render pass and its draws;
  - `requestAnimationFrame`;
  - the resize handlers;
  - the background colour;
  - the shader file.
- The animation's floating-point maths is not modelled, except for the
  generator's seed (Random.Next):
  - `Math.cos`, `Math.sin`, `Math.acos` and `Math.tan` are parameters or inputs;
  - the `Math.sqrt` normalisation of the vertex tables is the opaque
    placement `place`;
  - `Float32Array` rounding is ignored, and all arithmetic is on exact reals;
  - the elapsed time from `performance.now` is the input `t`.
- Random.Value: `seed / 0x7fffffff` is an exact real quotient, not the
  double nearest to it. The seed itself is computed as the source computes
  it, with both roundings to a double (Random.Next).
- Random.InitialSequence: states only the first two seeds, as an example.
  The later seeds follow from Random.Next, but each one is a separate
  evaluation of two roundings, and no lemma lists them.
- Geometry.CreateSphere: requires n ≥ 1. With 0 segments, the source divides
  by zero and produces NaN coordinates, which real numbers cannot represent.
  The same holds for Geometry.CreateCylinder.
- Render.FrameUniforms: requires exactly five axes, as the source always
  builds. The projection is an input, so the frame holds for either depth
  convention of `perspective`.
- Build.ProjectCard: states that the link part is empty exactly when there is
  no link. It states which link is chosen only through Build.CardLinks, whose
  result it embeds.
- Build.SortProjectsSpec: states a permutation and the order. It does not
  state stability as a separate lemma; the stable insertion order is the
  definition.
- The order of equal-dated posts follows the same stable sort. No lemma
  states it.
- Build.ProjectOrder: `order` is an integer. The source's `order?: number`
  may also be fractional, and `orderA - orderB` orders those too.
- Strings are sequences of Unicode scalar values. A JavaScript string is a
  sequence of UTF-16 code units: a surrogate pair is one character here, and
  a lone surrogate cannot be represented. No rule modelled here depends on the
  difference.
- Catalog: the squared edge lengths are not proved equal within a solid.
  The tables are checked for range, distinct endpoints and repeated edges.

## Findings

| source | as written | input that shows it | evidently intended | confidence | as-written member | corrected member |
|---|---|---|---|---|---|---|
| src/animations/platonic-solids.ts:112 | `perspective` fills the depth row with (near+far)/(near−far) and 2·near·far/(near−far). That maps the near plane to clip depth −w and the far plane to +w, the [−1, 1] depth range of OpenGL. WebGPU clips every depth below 0, and the pass clears depth to 1.0 and compares with "less". | near 0.1, far 100: a point 0.15 in front of the camera lies inside the frustum, but its clip depth is negative, so it is clipped. Everything nearer than about 0.2 is lost, and the depth buffer's precision is spent on the range [−w, w]. | far/(near−far) and near·far/(near−far): near maps to depth 0, far maps to depth w, and depth grows with distance | medium; not executed. The scene sits 8 units away, so the visible frames do not show it. | Matrix.PerspectiveAsWrittenClipsInsideFrustum | Matrix.PerspectiveKeepsFrustum |
