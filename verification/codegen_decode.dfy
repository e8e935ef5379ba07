/**
 * Readers for the generated modules, written independently of the
 * templates: each reader splits the text into lines and parses every line
 * by its fixed prefix, its quoted field and its numeric suffix. The
 * round-trip lemmas show that what the generators write reads back as one
 * import per page (or per data key), in entry order, with the expected
 * module specifier and binding index.
 *
 * The generators do not escape page ids, data keys or paths; the round
 * trips therefore ask that these hold no `"` and no line break.
 */
module CodeGenDecode {
  import opened Wrappers
  import opened Text
  import opened OrderedMaps
  import opened Values
  import opened Registry
  import opened CodeGen

  /** A page registered in the client page list, as read back. */
  datatype ClientImport = ClientImport(pageId: string, specifier: string, staticJson: string)

  /** A page registered in the SSR page list, as read back. */
  datatype SsrImport = SsrImport(pageId: string, index: nat, specifier: string)

  /** A data module registered in one page's data module, as read back. */
  datatype ModuleImport = ModuleImport(dataKey: string, index: nat, specifier: string)

  // ---- line readers -----------------------------------------------------

  /** After the prefix `p`, the text up to the next `"` and what follows that quote. */
  function Quoted(l: string, p: string): (r: Option<(string, string)>)
    ensures r.Some? ==> '"' !in r.value.0 && l == p + r.value.0 + "\"" + r.value.1
  {
    var rest :- DropPrefix(l, p);
    TakeUntil(rest, '"')
  }

  /** After the prefix `p`, a non-empty run of digits ended by `stop`, and what follows `stop`. */
  function Numbered(l: string, p: string, stop: char): Option<(nat, string)> {
    var rest :- DropPrefix(l, p);
    var d :- TakeUntil(rest, stop);
    if |d.0| > 0 && AllDigits(d.0) then Some((DigitsValue(d.0), d.1)) else None
  }

  /** The text without its last character, when that character is `c`. */
  function DropLast(s: string, c: char): (r: Option<string>)
    ensures r.Some? ==> s == r.value + [c]
  {
    if |s| > 0 && s[|s| - 1] == c then Some(s[..|s| - 1]) else None
  }

  function ReadDecl(l: string): Option<string> {
    var q :- Quoted(l, "pages[\"");
    if q.1 == "] = {};" then Some(q.0) else None
  }

  function ReadData(l: string): Option<(string, string)> {
    var q :- Quoted(l, "pages[\"");
    var m :- Quoted(q.1, "].data = () => import(\"");
    if m.1 == ");" then Some((q.0, m.0)) else None
  }

  function ReadStatic(l: string): Option<(string, string)> {
    var q :- Quoted(l, "pages[\"");
    var rest :- DropPrefix(q.1, "].staticData = ");
    var json :- DropLast(rest, ';');
    Some((q.0, json))
  }

  function ReadSsrImport(l: string): Option<(nat, string)> {
    var n :- Numbered(l, "import page", ' ');
    var m :- Quoted(n.1, "from \"");
    if m.1 == ";" then Some((n.0, m.0)) else None
  }

  function ReadSsrAssign(l: string): Option<(string, nat)> {
    var q :- Quoted(l, "pages[\"");
    var n :- Numbered(q.1, "] = page", ';');
    if n.1 == "" then Some((q.0, n.0)) else None
  }

  function ReadModuleImport(l: string): Option<(nat, string)> {
    var n :- Numbered(l, "import * as m", ' ');
    var m :- Quoted(n.1, "from \"");
    if m.1 == ";" then Some((n.0, m.0)) else None
  }

  function ReadModuleAssign(l: string): Option<(string, nat)> {
    var q :- Quoted(l, "modules[\"");
    var n :- Numbered(q.1, "] = m", ';');
    if n.1 == "" then Some((q.0, n.0)) else None
  }

  // ---- block readers ----------------------------------------------------

  /** An empty line, then the declaration, the lazy import and the static data of one page. */
  function ReadClientBlock(ls: seq<string>): Option<ClientImport>
    requires |ls| == 4
  {
    var id :- ReadDecl(ls[1]);
    var d :- ReadData(ls[2]);
    var s :- ReadStatic(ls[3]);
    if ls[0] == "" && d.0 == id && s.0 == id then Some(ClientImport(id, d.1, s.1)) else None
  }

  function ReadSsrBlock(ls: seq<string>): Option<SsrImport>
    requires |ls| == 4
  {
    var id :- ReadDecl(ls[1]);
    var i :- ReadSsrImport(ls[2]);
    var a :- ReadSsrAssign(ls[3]);
    if ls[0] == "" && a.0 == id && a.1 == i.0 then Some(SsrImport(id, i.0, i.1)) else None
  }

  function ReadModuleBlock(ls: seq<string>): Option<ModuleImport>
    requires |ls| == 3
  {
    var i :- ReadModuleImport(ls[1]);
    var a :- ReadModuleAssign(ls[2]);
    if ls[0] == "" && a.1 == i.0 then Some(ModuleImport(a.0, i.0, i.1)) else None
  }

  function ReadClientBlocks(ls: seq<string>): Option<seq<ClientImport>> {
    if |ls| == 0 then Some([])
    else if |ls| < 4 then None
    else
      var b :- ReadClientBlock(ls[..4]);
      var rest :- ReadClientBlocks(ls[4..]);
      Some([b] + rest)
  }

  function ReadSsrBlocks(ls: seq<string>): Option<seq<SsrImport>> {
    if |ls| == 0 then Some([])
    else if |ls| < 4 then None
    else
      var b :- ReadSsrBlock(ls[..4]);
      var rest :- ReadSsrBlocks(ls[4..]);
      Some([b] + rest)
  }

  function ReadModuleBlocks(ls: seq<string>): Option<seq<ModuleImport>> {
    if |ls| == 0 then Some([])
    else if |ls| < 3 then None
    else
      var b :- ReadModuleBlock(ls[..3]);
      var rest :- ReadModuleBlocks(ls[3..]);
      Some([b] + rest)
  }

  // ---- module readers ---------------------------------------------------

  /** The lines between `const pages = {};` and `export default pages;`, or none when there are none. */
  function PageListBody(ls: seq<string>): Option<seq<string>> {
    if |ls| < 5 || ls[0] != "" || ls[1] != "const pages = {};"
       || ls[|ls| - 2] != "export default pages;" || ls[|ls| - 1] != ""
    then None
    else if ls[2..|ls| - 2] == [""] then Some([])
    else Some(ls[2..|ls| - 2])
  }

  function ReadPageList(text: string): Option<seq<ClientImport>> {
    var body :- PageListBody(Lines(text));
    ReadClientBlocks(body)
  }

  function ReadPageListInSSR(text: string): Option<seq<SsrImport>> {
    var body :- PageListBody(Lines(text));
    ReadSsrBlocks(body)
  }

  /**
   * The lines of the imports of one page's data module, each import opening
   * with an empty line; the first one's empty line is the indented line
   * after `const modules = {};`.
   */
  function OnePageDataBody(ls: seq<string>): Option<seq<string>> {
    if |ls| < 4 || ls[0] != "" || ls[1] != "  const modules = {};" || ls[2] != "  "
       || ls[|ls| - 1] != "  export default modules;"
    then None
    else if |ls| == 4 then Some([])
    else Some([""] + ls[3..|ls| - 1])
  }

  function ReadOnePageData(text: string): Option<seq<ModuleImport>> {
    var body :- OnePageDataBody(Lines(text));
    ReadModuleBlocks(body)
  }

  // ---- what the generators are meant to produce ---------------------------

  /**
   * A page id, data key or path that the templates can quote unescaped: a
   * JavaScript string literal in double quotes ends at `"`, turns `\` into
   * an escape and may not hold a line terminator.
   */
  predicate Plain(s: string) {
    '"' !in s && '\\' !in s && '\n' !in s && '\r' !in s
  }

  predicate PlainPages(entries: seq<(string, PageEntry)>, stringify: OMap<string, Value> -> string) {
    forall i :: 0 <= i < |entries| ==> Plain(entries[i].0) && '\n' !in stringify(entries[i].1.staticData)
  }

  predicate PlainIds(entries: seq<(string, PageEntry)>) {
    forall i :: 0 <= i < |entries| ==> Plain(entries[i].0)
  }

  predicate PlainData(entries: seq<(string, string)>, slash: string -> string) {
    forall i :: 0 <= i < |entries| ==> Plain(entries[i].0) && Plain(slash(entries[i].1))
  }

  // ---- line lemmas ------------------------------------------------------

  /** Moves the bracket of a line with one quoted field to just after its closing quote. */
  lemma RegroupAfterQuote(a: string, x: string, q: string, b: string, y: string, c: string)
    ensures a + x + (q + b) + y + c == a + x + q + (b + y + c)
  {
  }

  /** Re-brackets a line with two quoted fields around its first closing quote. */
  lemma Regroup(h: string, b1: string, m: string, b2: string, q: string, open: string, close: string)
    requires b1 == q + open && b2 == q + close
    ensures h + b1 + m + b2 == h + q + (open + m + q + close)
  {
  }

  /** Re-brackets a line that starts with a number followed by `s` and a quoted field. */
  lemma RegroupAfterNumber(a: string, n: string, s: string, p: string, m: string, q: string, c: string)
    ensures a + n + (s + p) + m + (q + c) == a + n + s + (p + m + q + c)
  {
  }

  lemma QuotedOf(p: string, x: string, tail: string)
    requires '"' !in x
    ensures Quoted(p + x + "\"" + tail, p) == Some((x, tail))
  {
    assert p + x + "\"" + tail == p + (x + ['"'] + tail);
    DropPrefixConcat(p, x + ['"'] + tail);
    TakeUntilConcat(x, '"', tail);
  }

  lemma NumberedOf(p: string, n: nat, stop: char, tail: string)
    requires !('0' <= stop <= '9')
    ensures Numbered(p + NatToString(n) + [stop] + tail, p, stop) == Some((n, tail))
  {
    var d := NatToString(n);
    assert p + d + [stop] + tail == p + (d + [stop] + tail);
    DropPrefixConcat(p, d + [stop] + tail);
    DigitsExclude(d, stop);
    TakeUntilConcat(d, stop, tail);
    NatToStringRoundTrip(n);
  }

  /** A number that ends the line. */
  lemma NumberedLastOf(p: string, n: nat, stop: char)
    requires !('0' <= stop <= '9')
    ensures Numbered(p + NatToString(n) + [stop], p, stop) == Some((n, ""))
  {
    NumberedOf(p, n, stop, "");
    assert p + NatToString(n) + [stop] + "" == p + NatToString(n) + [stop];
  }

  lemma ReadDeclOf(id: string)
    requires '"' !in id
    ensures ReadDecl(ClientDeclLine(id)) == Some(id)
  {
    var close := "] = {};";
    assert ClientDeclLine(id) == "pages[\"" + id + "\"" + close by {
      assert "\"] = {};" == "\"" + close;
    }
    assert Quoted(ClientDeclLine(id), "pages[\"") == Some((id, close)) by {
      QuotedOf("pages[\"", id, close);
    }
  }

  /** The data line re-bracketed around the quote that closes the page id. */
  lemma DataLineShape(id: string)
    ensures ClientDataLine(id) == "pages[\"" + id + "\"" + ("].data = () => import(\"" + PageModule(id) + "\"" + ");")
  {
    assert "\"].data = () => import(\"" == "\"" + "].data = () => import(\"";
    assert "\");" == "\"" + ");";
    Regroup("pages[\"" + id, "\"].data = () => import(\"", PageModule(id), "\");", "\"", "].data = () => import(\"", ");");
  }

  lemma ReadDataOf(id: string)
    requires '"' !in id && '\n' !in id
    ensures ReadData(ClientDataLine(id)) == Some((id, PageModule(id)))
  {
    var open := "].data = () => import(\"";
    var close := ");";
    var tail := open + PageModule(id) + "\"" + close;
    assert ClientDataLine(id) == "pages[\"" + id + "\"" + tail by {
      DataLineShape(id);
    }
    assert Quoted(ClientDataLine(id), "pages[\"") == Some((id, tail)) by {
      QuotedOf("pages[\"", id, tail);
    }
    assert Quoted(tail, open) == Some((PageModule(id), close)) by {
      PageModuleQuotable(id);
      QuotedOf(open, PageModule(id), close);
    }
  }

  lemma ReadStaticOf(id: string, json: string)
    requires '"' !in id
    ensures ReadStatic(ClientStaticLine(id, json)) == Some((id, json))
  {
    var open := "].staticData = ";
    var tail := open + (json + ";");
    assert ClientStaticLine(id, json) == "pages[\"" + id + "\"" + tail by {
      assert "\"].staticData = " == "\"" + open;
      RegroupAfterQuote("pages[\"", id, "\"", open, json, ";");
    }
    assert Quoted(ClientStaticLine(id, json), "pages[\"") == Some((id, tail)) by {
      QuotedOf("pages[\"", id, tail);
    }
    assert DropPrefix(tail, open) == Some(json + ";") by {
      DropPrefixConcat(open, json + ";");
    }
    assert DropLast(json + ";", ';') == Some(json) by {
      assert (json + ";")[..|json|] == json;
    }
  }

  lemma ReadSsrImportOf(index: nat, id: string)
    requires '"' !in id && '\n' !in id
    ensures ReadSsrImport(SsrImportLine(index, id)) == Some((index, PageModule(id)))
  {
    var open := "from \"";
    var tail := open + PageModule(id) + "\"" + ";";
    assert SsrImportLine(index, id) == "import page" + NatToString(index) + [' '] + tail by {
      assert " from \"" == [' '] + open;
      assert "\";" == "\"" + ";";
      RegroupAfterNumber("import page", NatToString(index), [' '], open, PageModule(id), "\"", ";");
    }
    assert Numbered(SsrImportLine(index, id), "import page", ' ') == Some((index, tail)) by {
      NumberedOf("import page", index, ' ', tail);
    }
    assert Quoted(tail, open) == Some((PageModule(id), ";")) by {
      PageModuleQuotable(id);
      QuotedOf(open, PageModule(id), ";");
    }
  }

  lemma ReadSsrAssignOf(id: string, index: nat)
    requires '"' !in id
    ensures ReadSsrAssign(SsrAssignLine(id, index)) == Some((id, index))
  {
    var open := "] = page";
    var tail := open + NatToString(index) + ";";
    assert SsrAssignLine(id, index) == "pages[\"" + id + "\"" + tail by {
      assert "\"] = page" == "\"" + open;
      RegroupAfterQuote("pages[\"", id, "\"", open, NatToString(index), ";");
    }
    assert Quoted(SsrAssignLine(id, index), "pages[\"") == Some((id, tail)) by {
      QuotedOf("pages[\"", id, tail);
    }
    assert Numbered(tail, open, ';') == Some((index, "")) by {
      NumberedLastOf(open, index, ';');
    }
  }

  lemma ReadModuleImportOf(index: nat, path: string)
    requires '"' !in path
    ensures ReadModuleImport(ModuleImportLine(index, path)) == Some((index, path))
  {
    var open := "from \"";
    var tail := open + path + "\"" + ";";
    assert ModuleImportLine(index, path) == "import * as m" + NatToString(index) + [' '] + tail by {
      assert " from \"" == [' '] + open;
      assert "\";" == "\"" + ";";
      RegroupAfterNumber("import * as m", NatToString(index), [' '], open, path, "\"", ";");
    }
    assert Numbered(ModuleImportLine(index, path), "import * as m", ' ') == Some((index, tail)) by {
      NumberedOf("import * as m", index, ' ', tail);
    }
    assert Quoted(tail, open) == Some((path, ";")) by {
      QuotedOf(open, path, ";");
    }
  }

  lemma ReadModuleAssignOf(key: string, index: nat)
    requires '"' !in key
    ensures ReadModuleAssign(ModuleAssignLine(key, index)) == Some((key, index))
  {
    var open := "] = m";
    var tail := open + NatToString(index) + ";";
    assert ModuleAssignLine(key, index) == "modules[\"" + key + "\"" + tail by {
      assert "\"] = m" == "\"" + open;
      RegroupAfterQuote("modules[\"", key, "\"", open, NatToString(index), ";");
    }
    assert Quoted(ModuleAssignLine(key, index), "modules[\"") == Some((key, tail)) by {
      QuotedOf("modules[\"", key, tail);
    }
    assert Numbered(tail, open, ';') == Some((index, "")) by {
      NumberedLastOf(open, index, ';');
    }
  }

  // ---- client page list: blocks -------------------------------------------

  /** The lines of every page's block, in entry order. */
  function ClientLinesAll(entries: seq<(string, PageEntry)>, stringify: OMap<string, Value> -> string): (r: seq<seq<string>>)
    ensures |r| == |entries|
  {
    if |entries| == 0 then []
    else [ClientLines(entries[0].0, stringify(entries[0].1.staticData))] + ClientLinesAll(entries[1..], stringify)
  }

  /** What reading the client page list should give: one lazy import per entry. */
  function ExpectedClient(entries: seq<(string, PageEntry)>, stringify: OMap<string, Value> -> string): seq<ClientImport> {
    seq(|entries|, i requires 0 <= i < |entries| =>
      ClientImport(entries[i].0, PageModule(entries[i].0), stringify(entries[i].1.staticData)))
  }

  lemma ClientBlockIsLines(id: string, json: string)
    ensures ClientBlock(id, json) == Join(ClientLines(id, json), "\n")
  {
    JoinFour("", ClientDeclLine(id), ClientDataLine(id), ClientStaticLine(id, json), "\n");
  }

  lemma {:induction false} ClientBlocksAreLines(entries: seq<(string, PageEntry)>, stringify: OMap<string, Value> -> string)
    ensures ClientBlocks(entries, stringify) == JoinEach(ClientLinesAll(entries, stringify), "\n")
  {
    if |entries| > 0 {
      ClientBlockIsLines(entries[0].0, stringify(entries[0].1.staticData));
      ClientBlocksAreLines(entries[1..], stringify);
    }
  }

  // ---- no generated line breaks a line ------------------------------------

  lemma FreeOfThree(a: string, b: string, c: string, ch: char)
    requires ch !in a && ch !in b && ch !in c
    ensures ch !in a + b + c
  {
  }

  lemma FreeOfFive(a: string, b: string, c: string, d: string, e: string, ch: char)
    requires ch !in a && ch !in b && ch !in c && ch !in d && ch !in e
    ensures ch !in a + b + c + d + e
  {
  }

  lemma LiteralsSingleLine()
    ensures '\n' !in "pages[\"" && '\n' !in "\"] = {};" && '\n' !in "\"].data = () => import(\""
    ensures '\n' !in "\");" && '\n' !in "\"].staticData = " && '\n' !in ";"
    ensures '\n' !in "import page" && '\n' !in " from \"" && '\n' !in "\";" && '\n' !in "\"] = page"
    ensures '\n' !in "import * as m" && '\n' !in "modules[\"" && '\n' !in "\"] = m"
  {
  }

  lemma NoneContainFour(a: string, b: string, c: string, d: string, ch: char)
    requires ch !in a && ch !in b && ch !in c && ch !in d
    ensures NoneContain([a, b, c, d], ch)
  {
  }

  lemma NoneContainThree(a: string, b: string, c: string, ch: char)
    requires ch !in a && ch !in b && ch !in c
    ensures NoneContain([a, b, c], ch)
  {
  }

  lemma DeclLineSingle(id: string)
    requires Plain(id)
    ensures '\n' !in ClientDeclLine(id)
  {
    LiteralsSingleLine();
    FreeOfThree("pages[\"", id, "\"] = {};", '\n');
  }

  lemma DataLineSingle(id: string)
    requires Plain(id)
    ensures '\n' !in ClientDataLine(id)
  {
    LiteralsSingleLine();
    PageModuleQuotable(id);
    FreeOfFive("pages[\"", id, "\"].data = () => import(\"", PageModule(id), "\");", '\n');
  }

  lemma StaticLineSingle(id: string, json: string)
    requires Plain(id) && '\n' !in json
    ensures '\n' !in ClientStaticLine(id, json)
  {
    LiteralsSingleLine();
    FreeOfFive("pages[\"", id, "\"].staticData = ", json, ";", '\n');
  }

  lemma SsrImportLineSingle(index: nat, id: string)
    requires Plain(id)
    ensures '\n' !in SsrImportLine(index, id)
  {
    LiteralsSingleLine();
    PageModuleQuotable(id);
    DigitsExclude(NatToString(index), '\n');
    FreeOfFive("import page", NatToString(index), " from \"", PageModule(id), "\";", '\n');
  }

  lemma SsrAssignLineSingle(id: string, index: nat)
    requires Plain(id)
    ensures '\n' !in SsrAssignLine(id, index)
  {
    LiteralsSingleLine();
    DigitsExclude(NatToString(index), '\n');
    FreeOfFive("pages[\"", id, "\"] = page", NatToString(index), ";", '\n');
  }

  lemma ModuleImportLineSingle(index: nat, path: string)
    requires Plain(path)
    ensures '\n' !in ModuleImportLine(index, path)
  {
    LiteralsSingleLine();
    DigitsExclude(NatToString(index), '\n');
    FreeOfFive("import * as m", NatToString(index), " from \"", path, "\";", '\n');
  }

  lemma ModuleAssignLineSingle(key: string, index: nat)
    requires Plain(key)
    ensures '\n' !in ModuleAssignLine(key, index)
  {
    LiteralsSingleLine();
    DigitsExclude(NatToString(index), '\n');
    FreeOfFive("modules[\"", key, "\"] = m", NatToString(index), ";", '\n');
  }

  lemma ClientLinesPlain(id: string, json: string)
    requires Plain(id) && '\n' !in json
    ensures NoneContain(ClientLines(id, json), '\n')
  {
    DeclLineSingle(id);
    DataLineSingle(id);
    StaticLineSingle(id, json);
    NoneContainFour("", ClientDeclLine(id), ClientDataLine(id), ClientStaticLine(id, json), '\n');
  }

  lemma {:induction false} ClientLinesAllWellFormed(entries: seq<(string, PageEntry)>, stringify: OMap<string, Value> -> string)
    requires PlainPages(entries, stringify)
    ensures BlocksWellFormed(ClientLinesAll(entries, stringify), '\n')
  {
    if |entries| > 0 {
      ClientLinesPlain(entries[0].0, stringify(entries[0].1.staticData));
      assert PlainPages(entries[1..], stringify) by {
        forall i | 0 <= i < |entries| - 1
          ensures Plain(entries[1..][i].0) && '\n' !in stringify(entries[1..][i].1.staticData)
        {
          assert entries[1..][i] == entries[i + 1];
        }
      }
      ClientLinesAllWellFormed(entries[1..], stringify);
    }
  }

  lemma ReadClientBlockOf(id: string, json: string)
    requires Plain(id)
    ensures ReadClientBlock(ClientLines(id, json)) == Some(ClientImport(id, PageModule(id), json))
  {
    var ls := ClientLines(id, json);
    assert ReadDecl(ls[1]) == Some(id) by { ReadDeclOf(id); }
    assert ReadData(ls[2]) == Some((id, PageModule(id))) by { ReadDataOf(id); }
    assert ReadStatic(ls[3]) == Some((id, json)) by { ReadStaticOf(id, json); }
    ClientBlockFromLines(ls, id, PageModule(id), json);
  }

  lemma ClientBlockFromLines(ls: seq<string>, id: string, m: string, json: string)
    requires |ls| == 4 && ls[0] == ""
    requires ReadDecl(ls[1]) == Some(id) && ReadData(ls[2]) == Some((id, m)) && ReadStatic(ls[3]) == Some((id, json))
    ensures ReadClientBlock(ls) == Some(ClientImport(id, m, json))
  {
  }

  lemma {:induction false} ReadClientBlocksOf(entries: seq<(string, PageEntry)>, stringify: OMap<string, Value> -> string)
    requires PlainIds(entries)
    ensures ReadClientBlocks(Flatten(ClientLinesAll(entries, stringify))) == Some(ExpectedClient(entries, stringify))
  {
    if |entries| > 0 {
      var all := ClientLinesAll(entries, stringify);
      PlainIdsTail(entries);
      ReadClientBlocksOf(entries[1..], stringify);
      ClientLinesAllCons(entries, stringify);
      FlattenCons(all, 4);
      ReadClientBlockOf(entries[0].0, stringify(entries[0].1.staticData));
      ReadClientBlocksCons(Flatten(all));
      ExpectedClientCons(entries, stringify);
    } else {
      assert ExpectedClient(entries, stringify) == [];
    }
  }

  lemma PlainIdsTail(entries: seq<(string, PageEntry)>)
    requires |entries| > 0 && PlainIds(entries)
    ensures Plain(entries[0].0) && PlainIds(entries[1..])
  {
    forall i | 0 <= i < |entries| - 1 ensures Plain(entries[1..][i].0) {
      assert entries[1..][i] == entries[i + 1];
    }
  }

  lemma ClientLinesAllCons(entries: seq<(string, PageEntry)>, stringify: OMap<string, Value> -> string)
    requires |entries| > 0
    ensures ClientLinesAll(entries, stringify)[0] == ClientLines(entries[0].0, stringify(entries[0].1.staticData))
    ensures ClientLinesAll(entries, stringify)[1..] == ClientLinesAll(entries[1..], stringify)
  {
  }

  lemma ExpectedClientCons(entries: seq<(string, PageEntry)>, stringify: OMap<string, Value> -> string)
    requires |entries| > 0
    ensures ExpectedClient(entries, stringify)
         == [ClientImport(entries[0].0, PageModule(entries[0].0), stringify(entries[0].1.staticData))]
            + ExpectedClient(entries[1..], stringify)
  {
    var x := ExpectedClient(entries, stringify);
    var y := ExpectedClient(entries[1..], stringify);
    assert forall i | 0 <= i < |y| :: y[i] == x[i + 1];
  }

  /** A non-empty run of four-line blocks reads as its first block followed by the rest. */
  lemma ReadClientBlocksCons(ls: seq<string>)
    requires |ls| >= 4 && ReadClientBlock(ls[..4]).Some? && ReadClientBlocks(ls[4..]).Some?
    ensures ReadClientBlocks(ls) == Some([ReadClientBlock(ls[..4]).value] + ReadClientBlocks(ls[4..]).value)
  {
  }

  // ---- page lists: frame -------------------------------------------------

  lemma PageListFrameLines()
    ensures '\n' !in "const pages = {};" && '\n' !in "export default pages;"
  {
  }

  /** The lines of a page list around its body. */
  lemma PageListLines(body: string)
    ensures var ls := Lines(PageListModule(body));
      var s := Split(body, '\n');
      && |ls| == |s| + 4 && ls[0] == "" && ls[1] == "const pages = {};"
      && ls[|ls| - 2] == "export default pages;" && ls[|ls| - 1] == "" && ls[2..|ls| - 2] == s
  {
    PageListFrameLines();
    FrameLinesOf(PageListModule(body), "const pages = {};", body, "export default pages;");
  }

  lemma FrameLinesOf(text: string, h: string, body: string, f: string)
    requires '\n' !in h && '\n' !in f
    requires text == "\n" + h + "\n" + body + "\n" + f + "\n"
    ensures var ls := Lines(text);
      var s := Split(body, '\n');
      && |ls| == |s| + 4 && ls[0] == "" && ls[1] == h
      && ls[|ls| - 2] == f && ls[|ls| - 1] == "" && ls[2..|ls| - 2] == s
  {
    SplitFrame(h, body, f, '\n');
  }

  lemma PageListBodyOf(ls: seq<string>, s: seq<string>)
    requires |s| >= 1
    requires |ls| == |s| + 4 && ls[0] == "" && ls[1] == "const pages = {};"
    requires ls[|ls| - 2] == "export default pages;" && ls[|ls| - 1] == "" && ls[2..|ls| - 2] == s
    ensures PageListBody(ls) == Some(if s == [""] then [] else s)
  {
  }

  /** Blocks that each open with an empty line, joined: their lines, or one empty line when there are none. */
  lemma JoinedBlockLines(blocks: seq<seq<string>>)
    requires BlocksWellFormed(blocks, '\n')
    requires |blocks| > 0 ==> |blocks[0]| >= 2 && blocks[0][0] == ""
    ensures var s := Split(Join(JoinEach(blocks, "\n"), "\n"), '\n');
      && s[0] == "" && (if |blocks| == 0 then s == [""] else s == Flatten(blocks) && |s| > 1)
  {
    if |blocks| > 0 {
      SplitJoinBlocks(blocks, '\n');
      FlattenCons(blocks, |blocks[0]|);
    }
  }

  /** A page list whose blocks each open with an empty line has exactly their lines as its body. */
  lemma PageListBodyOfBlocks(blocks: seq<seq<string>>)
    requires BlocksWellFormed(blocks, '\n')
    requires |blocks| > 0 ==> |blocks[0]| >= 2 && blocks[0][0] == ""
    ensures PageListBody(Lines(PageListModule(Join(JoinEach(blocks, "\n"), "\n"))))
         == Some(Flatten(blocks))
  {
    var body := Join(JoinEach(blocks, "\n"), "\n");
    JoinedBlockLines(blocks);
    PageListLines(body);
    var text := PageListModule(body);
    PageListBodyOf(Lines(text), Split(body, '\n'));
  }

  // ---- client page list: round trip ----------------------------------------

  /**
   * The client page list reads back as one lazy import per registered page,
   * in registration order, each importing that page's data module and
   * carrying its serialised static data.
   */
  lemma PageListRoundTrip(pages: Pages, stringify: OMap<string, Value> -> string)
    requires pages.Valid()
    requires forall i :: 0 <= i < |pages.keys| ==>
      Plain(pages.keys[i]) && '\n' !in stringify(pages.m[pages.keys[i]].staticData)
    ensures var r := ReadPageList(RenderPageList(pages, stringify));
      && r.Some? && |r.value| == |pages.keys|
      && forall i :: 0 <= i < |pages.keys| ==>
        r.value[i] == ClientImport(pages.keys[i], PageModule(pages.keys[i]), stringify(pages.m[pages.keys[i]].staticData))
  {
    var es := Entries(pages);
    assert PlainPages(es, stringify);
    ClientBlocksRead(es, stringify);
  }

  /** The client page list of any run of entries reads back as the expected imports. */
  lemma ClientBlocksRead(es: seq<(string, PageEntry)>, stringify: OMap<string, Value> -> string)
    requires PlainPages(es, stringify)
    ensures ReadPageList(PageListModule(Join(ClientBlocks(es, stringify), "\n")))
         == Some(ExpectedClient(es, stringify))
  {
    var ls := ClientLinesAll(es, stringify);
    ClientBlocksAreLines(es, stringify);
    ClientLinesAllWellFormed(es, stringify);
    if |es| > 0 {
      ClientLinesAllCons(es, stringify);
    }
    PageListBodyOfBlocks(ls);
    assert PlainIds(es);
    ReadClientBlocksOf(es, stringify);
  }

  // ---- SSR page list -----------------------------------------------------

  /** The lines of every page's block; the entry at position `k` gets the index `start + k`. */
  function SsrLinesAll(entries: seq<(string, PageEntry)>, start: nat): (r: seq<seq<string>>)
    ensures |r| == |entries|
  {
    if |entries| == 0 then []
    else [SsrLines(entries[0].0, start)] + SsrLinesAll(entries[1..], start + 1)
  }

  /** What reading the SSR page list should give: one eager import per entry, numbered from `start`. */
  function ExpectedSsr(entries: seq<(string, PageEntry)>, start: nat): seq<SsrImport> {
    seq(|entries|, i requires 0 <= i < |entries| => SsrImport(entries[i].0, start + i, PageModule(entries[i].0)))
  }

  lemma SsrBlockIsLines(id: string, index: nat)
    ensures SsrBlock(id, index) == Join(SsrLines(id, index), "\n")
  {
    JoinFour("", ClientDeclLine(id), SsrImportLine(index, id), SsrAssignLine(id, index), "\n");
  }

  lemma {:induction false} SsrBlocksAreLines(entries: seq<(string, PageEntry)>, start: nat)
    ensures SsrBlocks(entries, start) == JoinEach(SsrLinesAll(entries, start), "\n")
  {
    if |entries| > 0 {
      SsrBlockIsLines(entries[0].0, start);
      SsrBlocksAreLines(entries[1..], start + 1);
    }
  }

  lemma SsrLinesPlain(id: string, index: nat)
    requires Plain(id)
    ensures NoneContain(SsrLines(id, index), '\n')
  {
    DeclLineSingle(id);
    SsrImportLineSingle(index, id);
    SsrAssignLineSingle(id, index);
    NoneContainFour("", ClientDeclLine(id), SsrImportLine(index, id), SsrAssignLine(id, index), '\n');
  }

  lemma {:induction false} SsrLinesAllWellFormed(entries: seq<(string, PageEntry)>, start: nat)
    requires PlainIds(entries)
    ensures BlocksWellFormed(SsrLinesAll(entries, start), '\n')
  {
    if |entries| > 0 {
      PlainIdsTail(entries);
      SsrLinesPlain(entries[0].0, start);
      SsrLinesAllWellFormed(entries[1..], start + 1);
    }
  }

  lemma ReadSsrBlockOf(id: string, index: nat)
    requires Plain(id)
    ensures ReadSsrBlock(SsrLines(id, index)) == Some(SsrImport(id, index, PageModule(id)))
  {
    var ls := SsrLines(id, index);
    assert ReadDecl(ls[1]) == Some(id) by { ReadDeclOf(id); }
    assert ReadSsrImport(ls[2]) == Some((index, PageModule(id))) by { ReadSsrImportOf(index, id); }
    assert ReadSsrAssign(ls[3]) == Some((id, index)) by { ReadSsrAssignOf(id, index); }
    SsrBlockFromLines(ls, id, index, PageModule(id));
  }

  lemma SsrBlockFromLines(ls: seq<string>, id: string, index: nat, m: string)
    requires |ls| == 4 && ls[0] == ""
    requires ReadDecl(ls[1]) == Some(id) && ReadSsrImport(ls[2]) == Some((index, m)) && ReadSsrAssign(ls[3]) == Some((id, index))
    ensures ReadSsrBlock(ls) == Some(SsrImport(id, index, m))
  {
  }

  lemma SsrLinesAllCons(entries: seq<(string, PageEntry)>, start: nat)
    requires |entries| > 0
    ensures SsrLinesAll(entries, start)[0] == SsrLines(entries[0].0, start)
    ensures SsrLinesAll(entries, start)[1..] == SsrLinesAll(entries[1..], start + 1)
  {
  }

  lemma ExpectedSsrCons(entries: seq<(string, PageEntry)>, start: nat)
    requires |entries| > 0
    ensures ExpectedSsr(entries, start)
         == [SsrImport(entries[0].0, start, PageModule(entries[0].0))] + ExpectedSsr(entries[1..], start + 1)
  {
    var x := ExpectedSsr(entries, start);
    var y := ExpectedSsr(entries[1..], start + 1);
    assert forall i | 0 <= i < |y| :: y[i] == x[i + 1];
  }

  lemma ReadSsrBlocksCons(ls: seq<string>)
    requires |ls| >= 4 && ReadSsrBlock(ls[..4]).Some? && ReadSsrBlocks(ls[4..]).Some?
    ensures ReadSsrBlocks(ls) == Some([ReadSsrBlock(ls[..4]).value] + ReadSsrBlocks(ls[4..]).value)
  {
  }

  lemma {:induction false} ReadSsrBlocksOf(entries: seq<(string, PageEntry)>, start: nat)
    requires PlainIds(entries)
    ensures ReadSsrBlocks(Flatten(SsrLinesAll(entries, start))) == Some(ExpectedSsr(entries, start))
  {
    if |entries| > 0 {
      var all := SsrLinesAll(entries, start);
      PlainIdsTail(entries);
      ReadSsrBlocksOf(entries[1..], start + 1);
      SsrLinesAllCons(entries, start);
      FlattenCons(all, 4);
      ReadSsrBlockOf(entries[0].0, start);
      ReadSsrBlocksCons(Flatten(all));
      ExpectedSsrCons(entries, start);
    } else {
      assert ExpectedSsr(entries, start) == [];
    }
  }

  /**
   * The SSR page list reads back as one eager import per registered page, in
   * registration order; the page at position `i` is bound to `page<i>`, so
   * no two pages share a binding.
   */
  lemma PageListInSSRRoundTrip(pages: Pages)
    requires pages.Valid()
    requires forall i :: 0 <= i < |pages.keys| ==> Plain(pages.keys[i])
    ensures var r := ReadPageListInSSR(RenderPageListInSSR(pages));
      && r.Some? && |r.value| == |pages.keys|
      && forall i :: 0 <= i < |pages.keys| ==> r.value[i] == SsrImport(pages.keys[i], i, PageModule(pages.keys[i]))
  {
    var es := Entries(pages);
    assert PlainIds(es);
    SsrBlocksRead(es);
  }

  /** The SSR page list of any run of entries reads back as the expected imports. */
  lemma SsrBlocksRead(es: seq<(string, PageEntry)>)
    requires PlainIds(es)
    ensures ReadPageListInSSR(PageListModule(Join(SsrBlocks(es, 0), "\n")))
         == Some(ExpectedSsr(es, 0))
  {
    var ls := SsrLinesAll(es, 0);
    SsrBlocksAreLines(es, 0);
    SsrLinesAllWellFormed(es, 0);
    if |es| > 0 {
      SsrLinesAllCons(es, 0);
    }
    PageListBodyOfBlocks(ls);
    ReadSsrBlocksOf(es, 0);
  }

  // ---- one page's data module ----------------------------------------------

  function ModuleLinesAll(entries: seq<(string, string)>, start: nat, slash: string -> string): (r: seq<seq<string>>)
    ensures |r| == |entries|
  {
    if |entries| == 0 then []
    else [ModuleLines(entries[0].0, start, slash(entries[0].1))] + ModuleLinesAll(entries[1..], start + 1, slash)
  }

  /** What reading one page's data module should give: one namespace import per data key. */
  function ExpectedModules(entries: seq<(string, string)>, start: nat, slash: string -> string): seq<ModuleImport> {
    seq(|entries|, i requires 0 <= i < |entries| => ModuleImport(entries[i].0, start + i, slash(entries[i].1)))
  }

  lemma ModuleBlockIsLines(key: string, index: nat, path: string)
    ensures ModuleBlock(key, index, path) == Join(ModuleLines(key, index, path), "\n")
  {
    JoinThree("", ModuleImportLine(index, path), ModuleAssignLine(key, index), "\n");
  }

  lemma {:induction false} ModuleBlocksAreLines(entries: seq<(string, string)>, start: nat, slash: string -> string)
    ensures ModuleBlocks(entries, start, slash) == JoinEach(ModuleLinesAll(entries, start, slash), "\n")
  {
    if |entries| > 0 {
      ModuleBlockIsLines(entries[0].0, start, slash(entries[0].1));
      ModuleBlocksAreLines(entries[1..], start + 1, slash);
    }
  }

  lemma ModuleLinesPlain(key: string, index: nat, path: string)
    requires Plain(key) && Plain(path)
    ensures NoneContain(ModuleLines(key, index, path), '\n')
  {
    ModuleImportLineSingle(index, path);
    ModuleAssignLineSingle(key, index);
    NoneContainThree("", ModuleImportLine(index, path), ModuleAssignLine(key, index), '\n');
  }

  lemma PlainDataTail(entries: seq<(string, string)>, slash: string -> string)
    requires |entries| > 0 && PlainData(entries, slash)
    ensures Plain(entries[0].0) && Plain(slash(entries[0].1)) && PlainData(entries[1..], slash)
  {
    forall i | 0 <= i < |entries| - 1 ensures Plain(entries[1..][i].0) && Plain(slash(entries[1..][i].1)) {
      assert entries[1..][i] == entries[i + 1];
    }
  }

  lemma {:induction false} ModuleLinesAllWellFormed(entries: seq<(string, string)>, start: nat, slash: string -> string)
    requires PlainData(entries, slash)
    ensures BlocksWellFormed(ModuleLinesAll(entries, start, slash), '\n')
  {
    if |entries| > 0 {
      PlainDataTail(entries, slash);
      ModuleLinesPlain(entries[0].0, start, slash(entries[0].1));
      ModuleLinesAllWellFormed(entries[1..], start + 1, slash);
    }
  }

  lemma ReadModuleBlockOf(key: string, index: nat, path: string)
    requires Plain(key) && Plain(path)
    ensures ReadModuleBlock(ModuleLines(key, index, path)) == Some(ModuleImport(key, index, path))
  {
    var ls := ModuleLines(key, index, path);
    assert ReadModuleImport(ls[1]) == Some((index, path)) by { ReadModuleImportOf(index, path); }
    assert ReadModuleAssign(ls[2]) == Some((key, index)) by { ReadModuleAssignOf(key, index); }
    ModuleBlockFromLines(ls, key, index, path);
  }

  lemma ModuleBlockFromLines(ls: seq<string>, key: string, index: nat, path: string)
    requires |ls| == 3 && ls[0] == ""
    requires ReadModuleImport(ls[1]) == Some((index, path)) && ReadModuleAssign(ls[2]) == Some((key, index))
    ensures ReadModuleBlock(ls) == Some(ModuleImport(key, index, path))
  {
  }

  lemma ModuleLinesAllCons(entries: seq<(string, string)>, start: nat, slash: string -> string)
    requires |entries| > 0
    ensures ModuleLinesAll(entries, start, slash)[0] == ModuleLines(entries[0].0, start, slash(entries[0].1))
    ensures ModuleLinesAll(entries, start, slash)[1..] == ModuleLinesAll(entries[1..], start + 1, slash)
  {
  }

  lemma ExpectedModulesCons(entries: seq<(string, string)>, start: nat, slash: string -> string)
    requires |entries| > 0
    ensures ExpectedModules(entries, start, slash)
         == [ModuleImport(entries[0].0, start, slash(entries[0].1))] + ExpectedModules(entries[1..], start + 1, slash)
  {
    var x := ExpectedModules(entries, start, slash);
    var y := ExpectedModules(entries[1..], start + 1, slash);
    assert forall i | 0 <= i < |y| :: y[i] == x[i + 1];
  }

  lemma ReadModuleBlocksCons(ls: seq<string>)
    requires |ls| >= 3 && ReadModuleBlock(ls[..3]).Some? && ReadModuleBlocks(ls[3..]).Some?
    ensures ReadModuleBlocks(ls) == Some([ReadModuleBlock(ls[..3]).value] + ReadModuleBlocks(ls[3..]).value)
  {
  }

  lemma {:induction false} ReadModuleBlocksOf(entries: seq<(string, string)>, start: nat, slash: string -> string)
    requires PlainData(entries, slash)
    ensures ReadModuleBlocks(Flatten(ModuleLinesAll(entries, start, slash))) == Some(ExpectedModules(entries, start, slash))
  {
    if |entries| > 0 {
      var all := ModuleLinesAll(entries, start, slash);
      PlainDataTail(entries, slash);
      ReadModuleBlocksOf(entries[1..], start + 1, slash);
      ModuleLinesAllCons(entries, start, slash);
      FlattenCons(all, 3);
      ReadModuleBlockOf(entries[0].0, start, slash(entries[0].1));
      ReadModuleBlocksCons(Flatten(all));
      ExpectedModulesCons(entries, start, slash);
    } else {
      assert ExpectedModules(entries, start, slash) == [];
    }
  }

  lemma OnePageDataFrameLines()
    ensures '\n' !in "  const modules = {};" && '\n' !in "  " && '\n' !in "  export default modules;"
  {
  }

  /** The lines of one page's data module around a body whose first line is empty. */
  lemma OnePageDataLines(body: string)
    requires Split(body, '\n')[0] == ""
    ensures var ls := Lines(DataModule(body));
      var s := Split(body, '\n');
      && |ls| == |s| + 3 && ls[0] == "" && ls[1] == "  const modules = {};" && ls[2] == "  "
      && ls[|ls| - 1] == "  export default modules;" && ls[3..|ls| - 1] == s[1..]
  {
    OnePageDataFrameLines();
    IndentedFrameLinesOf(DataModule(body),
      "  const modules = {};", "  ", body, "  export default modules;");
  }

  lemma IndentedFrameLinesOf(text: string, h: string, ind: string, body: string, f: string)
    requires '\n' !in h && '\n' !in ind && '\n' !in f
    requires Split(body, '\n')[0] == ""
    requires text == "\n" + h + "\n" + ind + body + "\n" + f
    ensures var ls := Lines(text);
      var s := Split(body, '\n');
      && |ls| == |s| + 3 && ls[0] == "" && ls[1] == h && ls[2] == ind
      && ls[|ls| - 1] == f && ls[3..|ls| - 1] == s[1..]
  {
    SplitFrameIndented(h, ind, body, f, '\n');
    assert ind + Split(body, '\n')[0] == ind;
  }

  lemma OnePageDataBodyOf(ls: seq<string>, s: seq<string>)
    requires |s| >= 1 && s[0] == ""
    requires |ls| == |s| + 3 && ls[0] == "" && ls[1] == "  const modules = {};" && ls[2] == "  "
    requires ls[|ls| - 1] == "  export default modules;" && ls[3..|ls| - 1] == s[1..]
    ensures OnePageDataBody(ls) == Some(if |s| == 1 then [] else s)
  {
    if |s| > 1 {
      assert [""] + s[1..] == s;
    }
  }

  /** A data module whose blocks each open with an empty line has exactly their lines as its body. */
  lemma OnePageDataBodyOfBlocks(blocks: seq<seq<string>>)
    requires BlocksWellFormed(blocks, '\n')
    requires |blocks| > 0 ==> |blocks[0]| >= 2 && blocks[0][0] == ""
    ensures OnePageDataBody(Lines(DataModule(Join(JoinEach(blocks, "\n"), "\n"))))
         == Some(Flatten(blocks))
  {
    var body := Join(JoinEach(blocks, "\n"), "\n");
    JoinedBlockLines(blocks);
    OnePageDataLines(body);
    var text := DataModule(body);
    OnePageDataBodyOf(Lines(text), Split(body, '\n'));
  }

  /**
   * One page's data module reads back as one namespace import per data key,
   * in insertion order; the import at position `i` is bound to `m<i>` and
   * loads the key's path as `slash` converts it.
   */
  lemma OnePageDataRoundTrip(data: OMap<string, string>, slash: string -> string)
    requires data.Valid()
    requires forall i :: 0 <= i < |data.keys| ==> Plain(data.keys[i]) && Plain(slash(data.m[data.keys[i]]))
    ensures var r := ReadOnePageData(RenderOnePageData(data, slash));
      && r.Some? && |r.value| == |data.keys|
      && forall i :: 0 <= i < |data.keys| ==> r.value[i] == ModuleImport(data.keys[i], i, slash(data.m[data.keys[i]]))
  {
    var es := Entries(data);
    assert PlainData(es, slash);
    ModuleBlocksRead(es, slash);
  }

  /** The data module of any run of entries reads back as the expected imports. */
  lemma ModuleBlocksRead(es: seq<(string, string)>, slash: string -> string)
    requires PlainData(es, slash)
    ensures ReadOnePageData(DataModule(Join(ModuleBlocks(es, 0, slash), "\n")))
         == Some(ExpectedModules(es, 0, slash))
  {
    var ls := ModuleLinesAll(es, 0, slash);
    ModuleBlocksAreLines(es, 0, slash);
    ModuleLinesAllWellFormed(es, 0, slash);
    if |es| > 0 {
      ModuleLinesAllCons(es, 0, slash);
    }
    OnePageDataBodyOfBlocks(ls);
    ReadModuleBlocksOf(es, 0, slash);
  }
}
