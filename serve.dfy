/**
 * The development server's request handler (scripts/serve.ts): how a request
 * path is mapped onto a file under the public directory, and which status and
 * body come back. The two existence tests of the source are two independent
 * predicates: `existsSync` (the synchronous test used before the `.html`
 * retry) and `fileExists` (the asynchronous `file(..).exists()` test that
 * decides what is served). `path.join` is modelled as concatenation.
 */
module Serve {

  const PublicDir: string := "./dist"
  const IndexPath: string := "/index.html"
  const NotFoundPage: string := "/404.html"
  const NotFoundText: string := "Not Found"

  datatype Body = File(path: string) | Text(text: string)

  datatype Response = Response(body: Body, status: int)

  /** `path.join(PUBLIC_DIR, p)`, modelled as concatenation. */
  function JoinPublic(p: string): string {
    PublicDir + p
  }

  /** The pathname after the root rewrite. */
  function Normalize(pathname: string): (p: string)
    ensures pathname == "/" ==> p == IndexPath
    ensures pathname != "/" ==> p == pathname
  {
    if pathname == "/" then IndexPath else pathname
  }

  /** The file path that is looked up for a request pathname. */
  function ResolvePath(pathname: string, existsSync: string -> bool): (filePath: string)
    ensures var p := Normalize(pathname);
            filePath == JoinPublic(p) || filePath == JoinPublic(p) + ".html"
    ensures var p := Normalize(pathname);
            filePath == JoinPublic(p) + ".html" <==> '.' !in p && !existsSync(JoinPublic(p))
  {
    var pathname := Normalize(pathname);
    var filePath := JoinPublic(pathname);
    if '.' !in pathname && !existsSync(filePath) then filePath + ".html" else filePath
  }

  /** The complete `fetch` handler. */
  function Handle(pathname: string, existsSync: string -> bool, fileExists: string -> bool): (r: Response)
    ensures var filePath := ResolvePath(pathname, existsSync);
            (r.status == 200 <==> fileExists(filePath))
            && (r.status == 200 ==> r.body == File(filePath))
            && (r.status != 200 ==> r.status == 404)
            && (r.status == 404 && fileExists(JoinPublic(NotFoundPage)) ==> r.body == File(JoinPublic(NotFoundPage)))
            && (r.status == 404 && !fileExists(JoinPublic(NotFoundPage)) ==> r.body == Text(NotFoundText))
  {
    var filePath := ResolvePath(pathname, existsSync);
    if fileExists(filePath) then Response(File(filePath), 200)
    else if fileExists(JoinPublic(NotFoundPage)) then Response(File(JoinPublic(NotFoundPage)), 404)
    else Response(Text(NotFoundText), 404)
  }

  /** A request for `/` looks up the index page, and `.html` is never appended to it. */
  lemma RootServesIndex(existsSync: string -> bool, fileExists: string -> bool)
    ensures ResolvePath("/", existsSync) == "./dist/index.html"
    ensures fileExists("./dist/index.html") ==> Handle("/", existsSync, fileExists) == Response(File("./dist/index.html"), 200)
  {
    assert '.' in IndexPath by { assert IndexPath[6] == '.'; }
  }

  /** A pathname containing a dot is looked up as it is, whatever the file system says. */
  lemma DottedPathNeverRewritten(pathname: string, existsSync: string -> bool)
    requires pathname != "/" && '.' in pathname
    ensures ResolvePath(pathname, existsSync) == JoinPublic(pathname)
  {
  }

  /**
   * The two existence tests are independent: when the synchronous test finds
   * the extension-less path but the served-file test does not, the answer is
   * 404 and no `.html` variant is tried.
   */
  lemma ExistsSyncDoesNotRetry(pathname: string, existsSync: string -> bool, fileExists: string -> bool)
    requires pathname != "/" && '.' !in pathname
    requires existsSync(JoinPublic(pathname)) && !fileExists(JoinPublic(pathname))
    ensures ResolvePath(pathname, existsSync) == JoinPublic(pathname)
    ensures Handle(pathname, existsSync, fileExists).status == 404
  {
  }
}
