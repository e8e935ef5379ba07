/**
 * The three virtual modules generated from the page registry: the client
 * page list (each page's data module is imported lazily), the SSR page list
 * (each page's data module is imported eagerly under a numbered binding) and
 * the data module of one page (one namespace import per data key).
 *
 * Every template is built from its lines so that the decoders in
 * `CodeGenDecode` can read the generated text back.
 */
module CodeGen {
  import opened Text
  import opened OrderedMaps
  import opened Values
  import opened Registry

  /** Prefix of the virtual module that serves one page's data. */
  const VirtualPagesPrefix := "@!virtual-modules/pages"

  /** Sub path used for the root page, since `pages/` would confuse the bundler. */
  const RootSubPath := "/__index"

  /** The sub path under which a page's data module is imported. */
  function SubPath(pageId: string): (r: string)
    ensures r != "/"
    ensures pageId == "/" || r == pageId
    ensures |r| >= |pageId|
  {
    if pageId == "/" then RootSubPath else pageId
  }

  /** The module specifier of a page's data module. */
  function PageModule(pageId: string): string {
    VirtualPagesPrefix + SubPath(pageId)
  }

  /** A page id that holds no quote or line break gives a specifier that holds none. */
  lemma PageModuleQuotable(pageId: string)
    requires '"' !in pageId && '\n' !in pageId
    ensures '"' !in PageModule(pageId) && '\n' !in PageModule(pageId)
  {
  }

  // ---- client page list -------------------------------------------------

  function ClientDeclLine(pageId: string): string {
    "pages[\"" + pageId + "\"] = {};"
  }

  function ClientDataLine(pageId: string): string {
    "pages[\"" + pageId + "\"].data = () => import(\"" + PageModule(pageId) + "\");"
  }

  function ClientStaticLine(pageId: string, json: string): string {
    "pages[\"" + pageId + "\"].staticData = " + json + ";"
  }

  /** The lines of one page's block, starting with the empty line the template opens with. */
  function ClientLines(pageId: string, json: string): seq<string> {
    ["", ClientDeclLine(pageId), ClientDataLine(pageId), ClientStaticLine(pageId, json)]
  }

  /** The code registering one page in the client page list. */
  function ClientBlock(pageId: string, json: string): string {
    "\n" + ClientDeclLine(pageId) + "\n" + ClientDataLine(pageId) + "\n" + ClientStaticLine(pageId, json)
  }

  /**
   * One block per entry, in entry order; `stringify` is `JSON.stringify` of the static data.
   * The length bound only supports the readers of the generated code; what
   * each block says is stated by the round trips.
   */
  function ClientBlocks(entries: seq<(string, PageEntry)>, stringify: OMap<string, Value> -> string): (r: seq<string>)
    ensures |r| == |entries|
  {
    if |entries| == 0 then []
    else [ClientBlock(entries[0].0, stringify(entries[0].1.staticData))] + ClientBlocks(entries[1..], stringify)
  }

  /** The page list module around its registrations. */
  function PageListModule(body: string): string {
    "\n" + "const pages = {};" + "\n" + body + "\n" + "export default pages;" + "\n"
  }

  /** `renderPageList`: the client page list module. */
  function RenderPageList(pages: Pages, stringify: OMap<string, Value> -> string): string
    requires pages.Valid()
  {
    PageListModule(Join(ClientBlocks(Entries(pages), stringify), "\n"))
  }

  // ---- SSR page list ----------------------------------------------------

  function SsrImportLine(index: nat, pageId: string): string {
    "import page" + NatToString(index) + " from \"" + PageModule(pageId) + "\";"
  }

  function SsrAssignLine(pageId: string, index: nat): string {
    "pages[\"" + pageId + "\"] = page" + NatToString(index) + ";"
  }

  function SsrLines(pageId: string, index: nat): seq<string> {
    ["", ClientDeclLine(pageId), SsrImportLine(index, pageId), SsrAssignLine(pageId, index)]
  }

  /** The code importing one page eagerly in the SSR page list. */
  function SsrBlock(pageId: string, index: nat): string {
    "\n" + ClientDeclLine(pageId) + "\n" + SsrImportLine(index, pageId) + "\n" + SsrAssignLine(pageId, index)
  }

  /**
   * One block per entry; the entry at position `k` gets the index `start + k`.
   * The length bound only supports the readers of the generated code; what
   * each block says is stated by the round trips.
   */
  function SsrBlocks(entries: seq<(string, PageEntry)>, start: nat): (r: seq<string>)
    ensures |r| == |entries|
  {
    if |entries| == 0 then []
    else [SsrBlock(entries[0].0, start)] + SsrBlocks(entries[1..], start + 1)
  }

  /** `renderPageListInSSR`: the server-side page list module. */
  function RenderPageListInSSR(pages: Pages): string
    requires pages.Valid()
  {
    PageListModule(Join(SsrBlocks(Entries(pages), 0), "\n"))
  }

  // ---- one page's data module --------------------------------------------

  function ModuleImportLine(index: nat, path: string): string {
    "import * as m" + NatToString(index) + " from \"" + path + "\";"
  }

  function ModuleAssignLine(dataKey: string, index: nat): string {
    "modules[\"" + dataKey + "\"] = m" + NatToString(index) + ";"
  }

  function ModuleLines(dataKey: string, index: nat, path: string): seq<string> {
    ["", ModuleImportLine(index, path), ModuleAssignLine(dataKey, index)]
  }

  /** The code importing one data module; `path` is already converted by `slash`. */
  function ModuleBlock(dataKey: string, index: nat, path: string): string {
    "\n" + ModuleImportLine(index, path) + "\n" + ModuleAssignLine(dataKey, index)
  }

  /**
   * One import per data entry; the entry at position `k` gets the index `start + k`.
   * The length bound only supports the readers of the generated code; what
   * each block says is stated by the round trips.
   */
  function ModuleBlocks(entries: seq<(string, string)>, start: nat, slash: string -> string): (r: seq<string>)
    ensures |r| == |entries|
  {
    if |entries| == 0 then []
    else [ModuleBlock(entries[0].0, start, slash(entries[0].1))] + ModuleBlocks(entries[1..], start + 1, slash)
  }

  /** The data module of one page around its imports. */
  function DataModule(body: string): string {
    "\n" + "  const modules = {};" + "\n" + "  " + body + "\n" + "  export default modules;"
  }

  /** `renderOnePageData`: the module exporting every data module of one page by key. */
  function RenderOnePageData(data: OMap<string, string>, slash: string -> string): string
    requires data.Valid()
  {
    DataModule(Join(ModuleBlocks(Entries(data), 0, slash), "\n"))
  }

  // ---- properties of the sub path ------------------------------------------

  /** The root page and a page named `/__index` import the same data module. */
  lemma SubPathCollision()
    ensures PageModule("/") == PageModule(RootSubPath)
  {
  }

  /** Apart from that pair, distinct pages import distinct data modules. */
  lemma PageModuleInjective(a: string, b: string)
    requires a != b
    requires !(a == "/" && b == RootSubPath) && !(a == RootSubPath && b == "/")
    ensures PageModule(a) != PageModule(b)
  {
    assert PageModule(a)[|VirtualPagesPrefix|..] == SubPath(a);
    assert PageModule(b)[|VirtualPagesPrefix|..] == SubPath(b);
  }
}
