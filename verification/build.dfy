/**
 * The decisions of the static (server-side rendered) build, over an
 * abstract file map of the client output directory: paths are normalised
 * and relative to that directory. The bundler, the server bundle
 * (`renderToString` and the keys of `ssrData`) and `JSON.stringify` of the
 * route info are inputs.
 */
module Build {
  import opened Wrappers
  import opened Text
  import opened OrderedMaps
  import opened Values
  import opened Paths
  import opened JsReplace

  /** The mount placeholder the HTML shell must hold. */
  const RootDiv := "<div id=\"root\"></div>"

  /** The build flag that turns on the hash router. */
  const HashRouterFlag := "__HASH_ROUTER__"

  /** The shell the client build emits, and the root page of the site. */
  const RootIndex := "index.html"

  /** Where the route `/404` is written. */
  const NotFoundIndex := "404/index.html"

  /** The bundler options the build reads or changes. */
  datatype Options = Options(define: Option<OMap<string, Value>>, outDir: Option<string>, base: Option<string>)

  /** A bundler result; only its HTML shell matters here. */
  datatype BuildResult = BuildResult(html: Option<string>)

  /** The client build returns one result, or an array of them. */
  datatype ClientBuild = Single(result: BuildResult) | Many(results: seq<BuildResult>)

  datatype BuildError =
    | NotOneBuildResult
    | MissingRootDiv

  /** Relative path to content. */
  type Files = map<string, string>

  /**
   * What a build leaves behind: the options object, which is changed before
   * anything can fail, and the site's files or the error the build stopped with.
   */
  datatype BuildOutcome = BuildOutcome(options: Options, files: Result<Files, BuildError>)

  /** How the mount text takes the placeholder's place: taken literally, or through `$`-pattern expansion as `String.prototype.replace` does. */
  datatype Splice = Literal | Expanding

  // ---- options --------------------------------------------------------------

  /** The server render must not use the hash router: a truthy flag is set to `false`. */
  function DisableHashRouter(o: Options): (r: Options)
    requires o.define.Some? ==> o.define.value.Valid()
    ensures r.outDir == o.outDir && r.base == o.base
    ensures r.define.Some? <==> o.define.Some?
    ensures r.define.Some? ==>
      && r.define.value.Valid() && r.define.value.keys == o.define.value.keys
      && (forall k :: k in o.define.value.m && k != HashRouterFlag ==> k in r.define.value.m && r.define.value.m[k] == o.define.value.m[k])
      && r.define.value.m.Keys == o.define.value.m.Keys
      && (HashRouterFlag in r.define.value.m ==> !Truthy(r.define.value.m[HashRouterFlag]))
    ensures r.define.Some? && HashRouterFlag in o.define.value.m && !Truthy(o.define.value.m[HashRouterFlag]) ==> r == o
    ensures r.define.Some? && HashRouterFlag in o.define.value.m && Truthy(o.define.value.m[HashRouterFlag]) ==>
      r.define.value.m[HashRouterFlag] == Bool(false)
    ensures o.define.None? || HashRouterFlag !in o.define.value.m ==> r == o
  {
    match o.define
    case None => o
    case Some(d) =>
      match Get(d, HashRouterFlag)
      case Some(v) => if Truthy(v) then o.(define := Some(Put(d, HashRouterFlag, Bool(false)))) else o
      case None => o
  }

  /** Disabling the hash router twice is disabling it once. */
  lemma DisableHashRouterIdempotent(o: Options)
    requires o.define.Some? ==> o.define.value.Valid()
    ensures DisableHashRouter(DisableHashRouter(o)) == DisableHashRouter(o)
  {
  }

  // ---- the client build result -----------------------------------------------

  /** An array result must hold exactly one result, which is unwrapped; a single result is used as it is. */
  function NormalizeClientBuild(c: ClientBuild): (r: Result<BuildResult, BuildError>)
    ensures r.Err? <==> c.Many? && |c.results| != 1
    ensures r.Err? ==> r.error == NotOneBuildResult
    ensures c.Single? ==> r == Ok(c.result)
    ensures c.Many? && |c.results| == 1 ==> r == Ok(c.results[0])
  {
    match c
    case Single(b) => Ok(b)
    case Many(bs) => if |bs| != 1 then Err(NotOneBuildResult) else Ok(bs[0])
  }

  /** An array holding one result means the same as that result alone. */
  lemma NormalizeSingletonArray(b: BuildResult)
    ensures NormalizeClientBuild(Many([b])) == NormalizeClientBuild(Single(b)) == Ok(b)
  {
  }

  // ---- one page --------------------------------------------------------------

  /** `clientResult.html?.includes('<div id="root"></div>')` */
  predicate HasRootDiv(b: BuildResult) {
    b.html.Some? && Contains(b.html.value, RootDiv)
  }

  /** What replaces the placeholder: the route info script, then the mount element around the server markup. */
  function Mount(info: string, content: string): string {
    "<script>window._vitePagesSSR=" + info + ";</script>\n<div id=\"root\">" + content + "</div>"
  }

  /** A page's HTML: the first placeholder of the shell replaced by the mount text, taken literally. */
  function PageHtml(shell: string, info: string, content: string): string {
    ReplaceFirst(shell, RootDiv, Mount(info, content))
  }

  /** A page's HTML as the build computes it: the mount text goes through `$`-pattern expansion. */
  function PageHtmlAsWritten(shell: string, info: string, content: string): string {
    ReplaceFirstJs(shell, RootDiv, Mount(info, content))
  }

  /** Only the first placeholder changes; the shell around it is kept. */
  lemma PageHtmlSplices(a: string, b: string, info: string, content: string)
    requires NoneBefore(a + RootDiv + b, RootDiv, |a|)
    ensures PageHtml(a + RootDiv + b, info, content) == a + Mount(info, content) + b
  {
    ReplaceFirstAt(a, RootDiv, b, Mount(info, content));
  }

  /** A shell without the placeholder is left as it is. */
  lemma PageHtmlWithoutRoot(shell: string, info: string, content: string)
    requires !Contains(shell, RootDiv)
    ensures PageHtml(shell, info, content) == shell
  {
  }

  lemma MountPrefixLiteral()
    ensures '$' !in "<script>window._vitePagesSSR=" && '$' !in ";</script>\n<div id=\"root\">" && '$' !in "</div>"
  {
  }

  /** Markup and route info without `$` come out the same either way. */
  lemma PageHtmlAsWrittenAgrees(shell: string, info: string, content: string)
    requires '$' !in info && '$' !in content
    ensures PageHtmlAsWritten(shell, info, content) == PageHtml(shell, info, content)
  {
    MountPrefixLiteral();
    assert '$' !in Mount(info, content);
    ReplaceFirstJsLiteral(shell, RootDiv, Mount(info, content));
  }

  /** The text of the mount in front of the server markup. */
  function MountHead(info: string): string {
    "<script>window._vitePagesSSR=" + info + ";</script>\n<div id=\"root\">"
  }

  lemma MountAround(info: string, content: string)
    requires '$' !in info
    ensures Mount(info, content) == MountHead(info) + content + "</div>"
    ensures '$' !in MountHead(info) && '$' !in "</div>"
  {
    MountPrefixLiteral();
  }

  lemma PageHtmlOfBare(info: string, content: string)
    ensures PageHtml(RootDiv, info, content) == Mount(info, content)
  {
    ReplaceFirstWhole(RootDiv, Mount(info, content));
  }

  lemma PageHtmlAsWrittenOfBare(info: string, content: string)
    ensures PageHtmlAsWritten(RootDiv, info, content) == Expand(Mount(info, content), RootDiv, "", "")
  {
    ReplaceFirstWhole(RootDiv, Mount(info, content));
  }

  /** Server markup `$$` on the bare placeholder: the build writes `$`, the literal splice keeps `$$`. */
  lemma PageHtmlDollarCounterexample(info: string)
    requires '$' !in info
    ensures PageHtml(RootDiv, info, "$$") == Mount(info, "$$")
    ensures PageHtmlAsWritten(RootDiv, info, "$$") == Mount(info, "$")
    ensures PageHtmlAsWritten(RootDiv, info, "$$") != PageHtml(RootDiv, info, "$$")
  {
    PageHtmlOfBare(info, "$$");
    PageHtmlAsWrittenOfBare(info, "$$");
    MountAround(info, "$$");
    MountAround(info, "$");
    ExpandOneDoubleDollar(MountHead(info), "</div>", RootDiv, "", "");
  }

  /** A page's HTML under the chosen splice; the build as written uses `Expanding`. */
  function SpliceHtml(splice: Splice, shell: string, info: string, content: string): (r: string)
    ensures splice == Literal || ('$' !in info && '$' !in content) ==> r == PageHtml(shell, info, content)
    ensures splice == Expanding ==> r == PageHtmlAsWritten(shell, info, content)
  {
    match splice
    case Literal => PageHtml(shell, info, content)
    case Expanding =>
      var r := PageHtmlAsWritten(shell, info, content);
      if '$' in info || '$' in content then r
      else PageHtmlAsWrittenAgrees(shell, info, content); r
  }

  // ---- writing the pages -----------------------------------------------------

  /** The files the pages are written to, `out` giving each page's path. */
  function Outputs(pages: seq<string>, out: string -> string): (r: set<string>)
    ensures forall i :: 0 <= i < |pages| ==> out(pages[i]) in r
    ensures forall f :: f in r ==> exists i :: 0 <= i < |pages| && out(pages[i]) == f
  {
    if |pages| == 0 then {}
    else
      var rest := Outputs(pages[1..], out);
      assert forall i :: 1 <= i < |pages| ==> pages[i] == pages[1..][i - 1];
      {out(pages[0])} + rest
  }

  /** Page `i` is the last of the list written to its file. */
  predicate LastWriter(pages: seq<string>, out: string -> string, i: nat)
    requires i < |pages|
  {
    forall j :: i < j < |pages| ==> out(pages[j]) != out(pages[i])
  }

  lemma LastWriterTail(pages: seq<string>, out: string -> string)
    requires |pages| > 0
    ensures forall i :: 1 <= i < |pages| && LastWriter(pages, out, i) ==> LastWriter(pages[1..], out, i - 1)
    ensures LastWriter(pages, out, 0) ==> out(pages[0]) !in Outputs(pages[1..], out)
  {
    forall i | 1 <= i < |pages| && LastWriter(pages, out, i) ensures LastWriter(pages[1..], out, i - 1) {
      forall j | i - 1 < j < |pages| - 1 ensures out(pages[1..][j]) != out(pages[1..][i - 1]) {
        assert pages[1..][j] == pages[j + 1];
      }
    }
    if LastWriter(pages, out, 0) {
      forall j | 0 <= j < |pages| - 1 ensures out(pages[1..][j]) != out(pages[0]) {
        assert pages[1..][j] == pages[j + 1];
      }
    }
  }

  /**
   * Each page's HTML written to the page's path, in list order (the writes
   * of `Promise.all` taken one after the other).
   */
  function WritePages(files: Files, pages: seq<string>, out: string -> string, splice: Splice,
                      shell: string, render: string -> string, info: string -> string): (r: Files)
    ensures r.Keys == files.Keys + Outputs(pages, out)
    ensures forall f :: f in files && f !in Outputs(pages, out) ==> r[f] == files[f]
    ensures forall i :: 0 <= i < |pages| && LastWriter(pages, out, i) ==>
      r[out(pages[i])] == SpliceHtml(splice, shell, info(pages[i]), render(pages[i]))
    decreases |pages|
  {
    if |pages| == 0 then files
    else
      LastWriterTail(pages, out);
      var p := pages[0];
      WritePages(files[out(p) := SpliceHtml(splice, shell, info(p), render(p))], pages[1..], out, splice, shell, render, info)
  }

  // ---- the whole build -------------------------------------------------------

  /** Move the `404` page to the root when no page `/` exists and the `404` page does. */
  function Fallback(files: Files, pages: seq<string>): (r: Files)
    ensures r.Keys == files.Keys + (if "/" !in pages && NotFoundIndex in files then {RootIndex} else {})
    ensures "/" !in pages && NotFoundIndex in files ==> r[RootIndex] == files[NotFoundIndex]
    ensures forall f :: f in files && f != RootIndex ==> r[f] == files[f]
    ensures "/" in pages || NotFoundIndex !in files ==> r == files
  {
    if "/" !in pages && NotFoundIndex in files then files[RootIndex := files[NotFoundIndex]] else files
  }

  /** The files once the pages are written and before the fallback. */
  function RenderedFiles(built: Files, pages: seq<string>, splice: Splice, shell: string,
                         render: string -> string, info: string -> string): Files {
    WritePages(built - {RootIndex}, pages, OutputPath, splice, shell, render, info)
  }

  /** The HTML shell of a build that succeeded. */
  function ShellOf(client: ClientBuild): string
    requires NormalizeClientBuild(client).Ok?
  {
    NormalizeClientBuild(client).value.html.GetOr("")
  }

  /**
   * `ssrBuild`: `built` is what the client build wrote, `client` what it
   * returned, `pages` the keys of `ssrData`, `render` is `renderToString`
   * and `info` is `JSON.stringify({routePath})` of a route. The build as
   * written splices with `Expanding`; `Literal` is the splice it evidently
   * means. The options are changed whether or not the build then fails.
   */
  function SsrBuild(splice: Splice, opts: Options, client: ClientBuild, built: Files, pages: seq<string>,
                    render: string -> string, info: string -> string): (r: BuildOutcome)
    requires opts.define.Some? ==> opts.define.value.Valid()
    ensures r.options == DisableHashRouter(opts)
    ensures r.files.Err? <==> NormalizeClientBuild(client).Err? || (|pages| > 0 && !HasRootDiv(NormalizeClientBuild(client).value))
    ensures r.files.Err? && NormalizeClientBuild(client).Err? ==> r.files.error == NotOneBuildResult
    ensures r.files.Err? && NormalizeClientBuild(client).Ok? ==> r.files.error == MissingRootDiv
  {
    var options := DisableHashRouter(opts);
    match NormalizeClientBuild(client)
    case Err(e) => BuildOutcome(options, Err(e))
    case Ok(result) =>
      if |pages| > 0 && !HasRootDiv(result) then BuildOutcome(options, Err(MissingRootDiv))
      else
        var shell := ShellOf(client);
        BuildOutcome(options, Ok(Fallback(RenderedFiles(built, pages, splice, shell, render, info), pages)))
  }

  /** The file map of a successful build: the rendered pages, with the `404` page copied to the root when there is no page `/`. */
  lemma SsrBuildFiles(splice: Splice, opts: Options, client: ClientBuild, built: Files, pages: seq<string>,
                      render: string -> string, info: string -> string)
    requires opts.define.Some? ==> opts.define.value.Valid()
    requires SsrBuild(splice, opts, client, built, pages, render, info).files.Ok?
    ensures SsrBuild(splice, opts, client, built, pages, render, info).files.value
         == Fallback(RenderedFiles(built, pages, splice, ShellOf(client), render, info), pages)
  {
  }

  /** Before the fallback, the root `index.html` exists exactly when a page is written there. */
  lemma RenderedRootIndex(built: Files, pages: seq<string>, splice: Splice, shell: string, render: string -> string, info: string -> string)
    ensures RootIndex in RenderedFiles(built, pages, splice, shell, render, info) <==> RootIndex in Outputs(pages, OutputPath)
  {
    assert RootIndex !in built - {RootIndex};
  }

  // ---- properties of the build -------------------------------------------------

  /** With no pages, a shell without the placeholder is no error, and only the fallback can give a root page. */
  lemma NoPagesNeedNoRoot(splice: Splice, opts: Options, client: ClientBuild, built: Files, render: string -> string, info: string -> string)
    requires opts.define.Some? ==> opts.define.value.Valid()
    requires NormalizeClientBuild(client).Ok?
    ensures SsrBuild(splice, opts, client, built, [], render, info).files.Ok?
    ensures RootIndex in SsrBuild(splice, opts, client, built, [], render, info).files.value <==> NotFoundIndex in built
  {
    SsrBuildFiles(splice, opts, client, built, [], render, info);
    RenderedRootIndex(built, [], splice, ShellOf(client), render, info);
    NotFoundNotRoot();
    assert RenderedFiles(built, [], splice, ShellOf(client), render, info) == built - {RootIndex};
  }

  lemma NotFoundNotRoot()
    ensures NotFoundIndex != RootIndex
  {
    assert |NotFoundIndex| != |RootIndex|;
  }

  /**
   * The root `index.html` of the site exists exactly when some page is
   * written there or the fallback copies the `404` page there: the shell the
   * client build emitted is never kept.
   */
  lemma RootIndexOrigin(splice: Splice, opts: Options, client: ClientBuild, built: Files, pages: seq<string>,
                        render: string -> string, info: string -> string)
    requires opts.define.Some? ==> opts.define.value.Valid()
    requires SsrBuild(splice, opts, client, built, pages, render, info).files.Ok?
    ensures var files := SsrBuild(splice, opts, client, built, pages, render, info).files.value;
      RootIndex in files <==> RootIndex in Outputs(pages, OutputPath) || ("/" !in pages && NotFoundIndex in files)
  {
    SsrBuildFiles(splice, opts, client, built, pages, render, info);
    RenderedRootIndex(built, pages, splice, ShellOf(client), render, info);
    NotFoundNotRoot();
  }

  /** Only the root route is written to the root `index.html`. */
  lemma RootIndexOnlyFromRoot(pages: seq<string>)
    requires forall i :: 0 <= i < |pages| ==> PlainRoute(pages[i])
    ensures RootIndex in Outputs(pages, OutputPath) <==> "/" in pages
  {
    RootOutputPages(pages);
    OutputsHit(pages, OutputPath, RootIndex, "/");
  }

  lemma RootOutputPages(pages: seq<string>)
    requires forall i :: 0 <= i < |pages| ==> PlainRoute(pages[i])
    ensures forall i :: 0 <= i < |pages| ==> (OutputPath(pages[i]) == RootIndex <==> pages[i] == "/")
  {
    forall i | 0 <= i < |pages| ensures OutputPath(pages[i]) == RootIndex <==> pages[i] == "/" {
      OutputPathIsRoot(pages[i]);
    }
  }

  /** When exactly the page `p` is written to `target`, `target` is written iff `p` is a page. */
  lemma OutputsHit(pages: seq<string>, out: string -> string, target: string, p: string)
    requires forall i :: 0 <= i < |pages| ==> (out(pages[i]) == target <==> pages[i] == p)
    ensures target in Outputs(pages, out) <==> p in pages
  {
  }

  /** When the fallback fires, the root page is byte for byte the `404` page. */
  lemma FallbackCopiesNotFound(splice: Splice, opts: Options, client: ClientBuild, built: Files, pages: seq<string>,
                               render: string -> string, info: string -> string)
    requires opts.define.Some? ==> opts.define.value.Valid()
    requires SsrBuild(splice, opts, client, built, pages, render, info).files.Ok?
    requires "/" !in pages
    ensures var files := SsrBuild(splice, opts, client, built, pages, render, info).files.value;
      NotFoundIndex in files ==> RootIndex in files && files[RootIndex] == files[NotFoundIndex]
  {
    SsrBuildFiles(splice, opts, client, built, pages, render, info);
    NotFoundNotRoot();
  }

  /** Distinct plain routes are written to distinct files, so every page is its own last writer. */
  lemma PlainRoutesLastWriters(pages: seq<string>, i: nat)
    requires forall k :: 0 <= k < |pages| ==> PlainRoute(pages[k])
    requires forall k, l :: 0 <= k < l < |pages| ==> pages[k] != pages[l]
    requires i < |pages|
    ensures LastWriter(pages, OutputPath, i)
  {
    forall j | i < j < |pages| ensures OutputPath(pages[j]) != OutputPath(pages[i]) {
      if OutputPath(pages[j]) == OutputPath(pages[i]) {
        OutputPathInjective(pages[j], pages[i]);
      }
    }
  }

  /** The page at `i` is written with its own HTML before the fallback. */
  lemma RenderedPage(built: Files, pages: seq<string>, splice: Splice, shell: string,
                     render: string -> string, info: string -> string, i: nat)
    requires i < |pages| && LastWriter(pages, OutputPath, i)
    ensures var w := RenderedFiles(built, pages, splice, shell, render, info);
      && OutputPath(pages[i]) in w
      && w[OutputPath(pages[i])] == SpliceHtml(splice, shell, info(pages[i]), render(pages[i]))
  {
  }

  /**
   * For distinct plain routes, every page's file holds the shell with the
   * placeholder replaced by that page's route info and markup; when `/` is a
   * page the fallback does not run. The build as written splices the mount
   * text literally only when neither the route info nor the markup holds `$`.
   */
  lemma EveryPageWritten(splice: Splice, opts: Options, client: ClientBuild, built: Files, pages: seq<string>,
                         render: string -> string, info: string -> string, i: nat)
    requires opts.define.Some? ==> opts.define.value.Valid()
    requires SsrBuild(splice, opts, client, built, pages, render, info).files.Ok?
    requires forall k :: 0 <= k < |pages| ==> PlainRoute(pages[k])
    requires forall k, l :: 0 <= k < l < |pages| ==> pages[k] != pages[l]
    requires i < |pages|
    ensures var files := SsrBuild(splice, opts, client, built, pages, render, info).files.value;
      && OutputPath(pages[i]) in files
      && files[OutputPath(pages[i])] == SpliceHtml(splice, ShellOf(client), info(pages[i]), render(pages[i]))
    ensures var files := SsrBuild(splice, opts, client, built, pages, render, info).files.value;
      splice == Literal || ('$' !in info(pages[i]) && '$' !in render(pages[i])) ==>
        files[OutputPath(pages[i])] == PageHtml(ShellOf(client), info(pages[i]), render(pages[i]))
  {
    SsrBuildFiles(splice, opts, client, built, pages, render, info);
    PlainRoutesLastWriters(pages, i);
    RenderedPage(built, pages, splice, ShellOf(client), render, info, i);
    OutputPathIsRoot(pages[i]);
  }

  /**
   * The `$$` counterexample through the whole build: a bare shell, the one
   * page `/` and the markup `$$`. The build as written writes `$`; the
   * literal splice writes `$$`.
   */
  lemma SsrBuildDollarCounterexample(opts: Options, built: Files, render: string -> string, info: string -> string)
    requires opts.define.Some? ==> opts.define.value.Valid()
    requires render("/") == "$$" && '$' !in info("/")
    ensures var client := Single(BuildResult(Some(RootDiv)));
      && SsrBuild(Expanding, opts, client, built, ["/"], render, info).files.Ok?
      && SsrBuild(Literal, opts, client, built, ["/"], render, info).files.Ok?
      && RootIndex in SsrBuild(Expanding, opts, client, built, ["/"], render, info).files.value
      && RootIndex in SsrBuild(Literal, opts, client, built, ["/"], render, info).files.value
      && SsrBuild(Expanding, opts, client, built, ["/"], render, info).files.value[RootIndex] == Mount(info("/"), "$")
      && SsrBuild(Literal, opts, client, built, ["/"], render, info).files.value[RootIndex] == Mount(info("/"), "$$")
  {
    var client := Single(BuildResult(Some(RootDiv)));
    assert HasRootDiv(client.result) by { assert OccursAt(RootDiv, RootDiv, 0); }
    OutputPathRoot();
    EveryPageWritten(Expanding, opts, client, built, ["/"], render, info, 0);
    EveryPageWritten(Literal, opts, client, built, ["/"], render, info, 0);
    PageHtmlDollarCounterexample(info("/"));
  }

  // ---- the unused preload helper ---------------------------------------------

  function PreloadTag(filePath: string): string {
    "<link rel=\"modulepreload\" href=\"" + filePath + "\" />"
  }

  /** `injectPreload`, with the replacement taken literally. */
  function InjectPreload(html: string, filePath: string): string {
    if Contains(html, "</head>") then ReplaceFirst(html, "</head>", PreloadTag(filePath) + "\n</head>")
    else PreloadTag(filePath) + "\n" + html
  }

  /** `injectPreload` as written: the replacement goes through `$`-pattern expansion. */
  function InjectPreloadAsWritten(html: string, filePath: string): string {
    if Contains(html, "</head>") then ReplaceFirstJs(html, "</head>", PreloadTag(filePath) + "\n</head>")
    else PreloadTag(filePath) + "\n" + html
  }

  /** The tag and a line break go right before the first `</head>`; the rest of the page is kept. */
  lemma InjectPreloadBeforeHead(a: string, b: string, filePath: string)
    requires NoneBefore(a + "</head>" + b, "</head>", |a|)
    ensures InjectPreload(a + "</head>" + b, filePath) == a + PreloadTag(filePath) + "\n</head>" + b
  {
    var s := a + "</head>" + b;
    assert OccursAt(s, "</head>", |a|) by { assert s[|a|..|a| + 7] == "</head>"; }
    ReplaceFirstAt(a, "</head>", b, PreloadTag(filePath) + "\n</head>");
  }

  /** A page without `</head>` gets the tag on a line of its own in front. */
  lemma InjectPreloadWithoutHead(html: string, filePath: string)
    requires !Contains(html, "</head>")
    ensures InjectPreload(html, filePath) == PreloadTag(filePath) + "\n" + html
  {
  }

  lemma PreloadAround(filePath: string)
    ensures PreloadTag(filePath) + "\n</head>" == PreloadHead() + filePath + PreloadTail()
    ensures '$' !in PreloadHead() && '$' !in PreloadTail()
  {
    assert "\" />" + "\n</head>" == PreloadTail();
  }

  function PreloadHead(): string {
    "<link rel=\"modulepreload\" href=\""
  }

  function PreloadTail(): string {
    "\" />\n</head>"
  }

  lemma BareHead()
    ensures Contains("</head>", "</head>")
  {
    assert OccursAt("</head>", "</head>", 0);
  }

  lemma InjectPreloadOfHead(filePath: string)
    ensures InjectPreload("</head>", filePath) == PreloadTag(filePath) + "\n</head>"
  {
    BareHead();
    ReplaceFirstWhole("</head>", PreloadTag(filePath) + "\n</head>");
  }

  lemma InjectPreloadAsWrittenOfHead(filePath: string)
    ensures InjectPreloadAsWritten("</head>", filePath) == Expand(PreloadTag(filePath) + "\n</head>", "</head>", "", "")
  {
    BareHead();
    ReplaceFirstWhole("</head>", PreloadTag(filePath) + "\n</head>");
  }

  /** A path `$$` before a bare `</head>`: the helper as written emits `href="$"`. */
  lemma InjectPreloadDollarCounterexample()
    ensures InjectPreload("</head>", "$$") == PreloadTag("$$") + "\n</head>"
    ensures InjectPreloadAsWritten("</head>", "$$") == PreloadTag("$") + "\n</head>"
    ensures InjectPreloadAsWritten("</head>", "$$") != InjectPreload("</head>", "$$")
  {
    InjectPreloadOfHead("$$");
    InjectPreloadAsWrittenOfHead("$$");
    PreloadAround("$$");
    PreloadAround("$");
    ExpandOneDoubleDollar(PreloadHead(), PreloadTail(), "</head>", "", "");
  }
}
