# vite-pages: page registry, generated modules and static build, in Dafny

This project models two parts of vite-pages, the file-system routing layer for
React on Vite.

**Page discovery and code generation** (`pages.ts`):
- the page registry that one discovery pass builds through `addPageData`;
- `collectPagesData`, which runs a custom page-finding strategy or folds the
  default strategy's pages into the registry;
- the cached file read and `extractStaticData`, which turns a page file into its
  static data;
- the three virtual modules generated from the registry:
  - the client page list, with lazy `import()`;
  - the server-side page list, with numbered static imports;
  - the data module of one page.

**The static (server-side rendered) build** (`ssr.ts`):
- normalising the client build result;
- the `<div id="root"></div>` placeholder check;
- the first-occurrence splice of the server markup into the HTML shell;
- the output path of each route;
- removing the default shell and the `404` fallback;
- turning off the hash-router flag;
- the unused `injectPreload` helper.

The build is a pure function over a map from relative path to file content.

Three places where the code differs from what it evidently means are modelled
both ways (see "## Findings"):
- The build inserts each page's mount text with `String.prototype.replace`,
  which expands `$` patterns. `Build.SsrBuild` takes the splice as a
  parameter: `Expanding` is the build as written, `Literal` the intended one.
- `addPageData` looks keys up on `{}` objects, which inherit names such as
  `constructor`. The discovery pass folds this lookup as written
  (`Registry.AddPageDataAsWritten`). `Registry.AddPageData` is the corrected
  registration; a call that succeeds as written gives its result.
- The unused `injectPreload` helper inserts its tag with a regular-expression
  `replace`, which also expands `$` patterns. `Build.InjectPreloadAsWritten`
  is the helper as written, `Build.InjectPreload` the intended one.

Modules, one per file:
- **`Registry`** (`registry.dfy`): the registry and `addPageData`. JavaScript objects
  become insertion-ordered maps (`OrderedMaps`, `omap.dfy`), and values become a
  small JavaScript value type with truthiness (`Values`).
- **`Discovery`** (`discovery.dfy`): a whole discovery pass, the read cache and
  static-data extraction.
- **`Paths`** (`paths.dfy`): `path.extname` and `path.join` with its normalisation.
- **`CodeGen`** (`codegen.dfy`): the three module generators.
- **`CodeGenDecode`** (`codegen_decode.dfy`): independent line-by-line readers for
  the generated modules, and the round trips that connect the two.
- **`JsReplace`** (`jsreplace.dfy`): `String.prototype.replace` with a string
  replacement, including the `$`-pattern expansion of GetSubstitution (section
  22.1.3.19.1 of ECMAScript 2023).
- **`Build`** (`build.dfy`): the static build.
- **`Text`** (`text.dfy`) and **`Wrappers`** (`wrappers.dfy`): string and
  `Option`/`Result` helpers.

Outside collaborators are parameters:
- `gray-matter` and `jest-docblock` parsing, `JSON.stringify`, `slash` and
  `renderToString` are function arguments;
- the file system is a map;
- the bundler's two builds are their results: the returned `BuildResult`s and
  the files written.

## Model

| member | source | states |
|---|---|---|
| Registry.AddPageData | packages/react-pages/src/node/dynamic-modules/pages.ts:182-212 | An id without a leading `/` is refused and leaves the registry as it was. Otherwise the route exists afterwards, appended at the end if new, even when the call fails. No other route changes and nothing is removed. A data conflict happens exactly when a truthy `dataPath` meets a key already holding a data path. A static-data conflict happens exactly when truthy static data meets a taken static key and the data part did not fail. No other error is thrown, and a data conflict leaves the route's entry as it was. A successful call stores each truthy field under `key ?? "main"`, and no other key of the route changes. |
| Registry.Register | packages/react-pages/src/node/dynamic-modules/pages.ts:182-212 | The same registration, with the lookup's inherited names as a parameter. The route is created or kept, its entry becomes the updated entry, and the thrown error is the update's error. Other routes stay as they were. |
| Registry.UpdateEntry | packages/react-pages/src/node/dynamic-modules/pages.ts:195-211 | Within one route: the data write is refused exactly when its key reads truthy. The static write is refused exactly when the data write was not refused and its own key reads truthy. Stored values stay, and the result keeps every stored value truthy. |
| Registry.WriteData | packages/react-pages/src/node/dynamic-modules/pages.ts:202 | Storing a data path under a free key adds exactly that key with that path, keeps every earlier key in order and leaves static data untouched. |
| Registry.WriteStatic | packages/react-pages/src/node/dynamic-modules/pages.ts:210 | Storing static data under a free key adds exactly that key with that value, keeps every earlier key in order and leaves the data paths untouched. |
| Registry.AddPageDataAsWritten | packages/react-pages/src/node/dynamic-modules/pages.ts:197-210 | The lookup as the code performs it, on `{}` objects that inherit from `Object.prototype`. The registry stays well formed and only grows, and an id without a leading `/` is refused with the registry unchanged. A call that succeeds gives exactly the corrected result, and every request the corrected call refuses is refused too. For a key that is not an inherited name it agrees with AddPageData. For a truthy data path under an inherited name the route does not own yet, it reports a data conflict. |
| Registry.UpdateInheritedRefusesMore | packages/react-pages/src/node/dynamic-modules/pages.ts:196-211 | Inherited names only make more keys look taken: an update that succeeds with them equals the update without them, and one that fails without them fails with them. |
| Registry.AsWrittenRefusesConstructorKey | packages/react-pages/src/node/dynamic-modules/pages.ts:197-202 | Registering data key `constructor` on a brand-new route fails as written but succeeds in the corrected registration. |
| Registry.TakenIffPresent | packages/react-pages/src/node/dynamic-modules/pages.ts:197-205 | Since only truthy values are ever stored, the truthiness test of a key is the same as the key being present. |
| Registry.DataWriteSurvivesStaticConflict | packages/react-pages/src/node/dynamic-modules/pages.ts:196-211 | Registration is not atomic: when the static part conflicts, the data path written just before stays in the registry. |
| Registry.EmptyRequestCreatesEntry | packages/react-pages/src/node/dynamic-modules/pages.ts:188-194 | A request for a new route with neither field succeeds and appends the route with two empty maps. |
| Registry.BothFieldsUnderOneKey | packages/react-pages/src/node/dynamic-modules/pages.ts:196-211 | The two namespaces are independent: one fresh key receives a data path and static data in a single successful call. |
| Registry.SameKeyTwiceConflicts | packages/react-pages/src/node/dynamic-modules/pages.ts:196-210 | After a successful registration, registering the same route and key again with a data path twice is a data conflict. With static data twice it is a data conflict when the second request also has a data path and that key holds one, and a static-data conflict otherwise. |
| Registry.DistinctKeysNeverConflict | packages/react-pages/src/node/dynamic-modules/pages.ts:196-211 | Two registrations of one route under distinct free keys both succeed. |
| Discovery.Step | packages/react-pages/src/node/dynamic-modules/pages.ts:83 | One `addPageData` call of a pass, with the lookup as written: on success the registry stays well formed and has only grown. |
| Discovery.StepAgrees | packages/react-pages/src/node/dynamic-modules/pages.ts:83 | A successful call of the pass is a successful corrected registration, with the same registry. |
| Discovery.StepKeys | packages/react-pages/src/node/dynamic-modules/pages.ts:188-194 | A successful call appends the route when it is new and keeps the route order otherwise. |
| Discovery.AddAll | packages/react-pages/src/node/dynamic-modules/pages.ts:83 | Folding requests through `addPageData` keeps the registry well formed and only grows it. |
| Discovery.AddAllFirstError | packages/react-pages/src/node/dynamic-modules/pages.ts:83 | A failed pass failed at one request: the requests before it all succeeded, and the pass reports the error of that request, run on the registry they built. |
| Discovery.AddAllRouteOrder | packages/react-pages/src/node/dynamic-modules/pages.ts:83 | After a successful pass the routes are the registered ids, in order of first registration, with each id once. |
| Discovery.AddAllKeepsEveryRegistration | packages/react-pages/src/node/dynamic-modules/pages.ts:83 | After a successful pass, every request's data path and static data are found under its route and key. |
| Discovery.AddAllDataKeysDistinct | packages/react-pages/src/node/dynamic-modules/pages.ts:196-202 | In a successful pass no two requests put a data path under the same key of the same route. |
| Discovery.AddAllRejectsDuplicateData | packages/react-pages/src/node/dynamic-modules/pages.ts:196-201 | A pass holding two data registrations for one route and key fails. |
| Discovery.AddAllStaticKeysDistinct | packages/react-pages/src/node/dynamic-modules/pages.ts:203-210 | In a successful pass no two requests put static data under the same key of the same route. |
| Discovery.AddAllRejectsDuplicateStatic | packages/react-pages/src/node/dynamic-modules/pages.ts:203-209 | A pass holding two static-data registrations for one route and key fails. |
| Discovery.StepDataOrigin | packages/react-pages/src/node/dynamic-modules/pages.ts:195-202 | A data path stored after a successful call was stored before it, or is the call's own path under its route and key. |
| Discovery.StepStaticOrigin | packages/react-pages/src/node/dynamic-modules/pages.ts:203-210 | Static data stored after a successful call was stored before it, or is the call's own static data under its route and key. |
| Discovery.AddAllDataOrigin | packages/react-pages/src/node/dynamic-modules/pages.ts:182-211 | A data path stored after a successful pass was stored before it, or names a request of the pass that gave it under that route and key. |
| Discovery.AddAllStaticOrigin | packages/react-pages/src/node/dynamic-modules/pages.ts:182-211 | Static data stored after a successful pass was stored before it, or names a request of the pass that gave it under that route and key. |
| Discovery.AddAllStoresOnlyRequests | packages/react-pages/src/node/dynamic-modules/pages.ts:182-211 | A successful pass stores nothing else: every stored data path and static-data value was there before or was given by some request under that route and key. |
| Discovery.AddAllRejectsInvalidId | packages/react-pages/src/node/dynamic-modules/pages.ts:183-187 | A pass holding an id without a leading `/` fails. |
| Discovery.CollectPagesData | packages/react-pages/src/node/dynamic-modules/pages.ts:74-86 | With a custom strategy the result is exactly what its registrations produce. Otherwise it is exactly the default strategy's pages folded in order. On success the routes are the registered ids in order of first registration. |
| Discovery.CollectPagesDataExactly | packages/react-pages/src/node/dynamic-modules/pages.ts:74-86 | A successful pass holds exactly its requests: each request's data path and static data are stored under its route and key, and every stored value was given by some request under that route and key. |
| Discovery.PassRefusesConstructorKey | packages/react-pages/src/node/dynamic-modules/pages.ts:74-86 | A custom strategy that registers a data path under key `constructor` for a new route makes the whole pass fail with a data conflict. |
| Discovery.ReadFileWithCache | packages/react-pages/src/node/dynamic-modules/pages.ts:168-173 | Through a sound cache the result is what the file system holds. A path is read once, and a cached path is answered from the cache without a new read. |
| Discovery.ReadAllCaches | packages/react-pages/src/node/dynamic-modules/pages.ts:168-173 | A run of reads keeps the cache sound and caches exactly the requested paths. |
| Discovery.ReadAllResults | packages/react-pages/src/node/dynamic-modules/pages.ts:169-173 | Every request in a run of reads sees the file's content, whether cached or not. |
| Discovery.ReadCountIsDistinctPaths | packages/react-pages/src/node/dynamic-modules/pages.ts:168-173 | A fresh pass performs exactly one underlying read per distinct path, however often each is requested. |
| Discovery.ExtractStaticData | packages/react-pages/src/node/dynamic-modules/pages.ts:146-163 | `md`/`mdx` and `js`/`jsx`/`ts`/`tsx` succeed and every other extension fails with that extension. On success `sourceType` is `md` or `js` and overrides a parsed field of that name. Every other parsed field is kept in its place. |
| Discovery.ExtractStaticDataWithCache | packages/react-pages/src/node/dynamic-modules/pages.ts:174-178 | The file is read through the cache, even when its extension is then refused. A missing file fails the read; otherwise extraction runs on the content with the path's extension. |
| Discovery.StaticDataSourceTypeByFileName | packages/react-pages/src/node/dynamic-modules/pages.ts:174-178 | For a file `stem.ext`, success and `sourceType` follow from `ext` alone, whatever dots the stem holds. |
| Paths.ExtName | packages/react-pages/src/node/dynamic-modules/pages.ts:177 | `path.extname` is empty or a single dot followed by text without dot or slash. A non-empty result is the base name from its last `.` on, and never the whole base name. A base name without `.` has the empty extension. |
| Paths.DotlessFileHasNoExt | packages/react-pages/src/node/dynamic-modules/pages.ts:177 | A file name without a dot, such as `dir/README`, has the empty extension. |
| Paths.ExtOfFileName | packages/react-pages/src/node/dynamic-modules/pages.ts:177 | The extension of `dir/stem.ext` without its dot is `ext`. |
| Paths.DotFileHasNoExt | packages/react-pages/src/node/dynamic-modules/pages.ts:177 | A dot-file such as `.md` has the empty extension, so extraction refuses it. |
| Paths.OutputPathRoot | old/vite-plugin-react-pages.old/src/node/build/ssr.ts:98 | The route `/` is written to the root `index.html`. |
| Paths.OutputPathPlain | old/vite-plugin-react-pages.old/src/node/build/ssr.ts:98 | A route `/a/b` of plain segments is written to `a/b/index.html`. |
| Paths.OutputPathIsRoot | old/vite-plugin-react-pages.old/src/node/build/ssr.ts:98 | Among plain routes, exactly `/` is written to the root `index.html`. |
| Paths.OutputPathInjective | old/vite-plugin-react-pages.old/src/node/build/ssr.ts:98 | Distinct plain routes are written to distinct files. |
| CodeGen.SubPath | packages/react-pages/src/node/dynamic-modules/pages.ts:91-96 | The sub path is never `/`, and it is the route id itself for every route but `/`. |
| CodeGen.SubPathCollision | packages/react-pages/src/node/dynamic-modules/pages.ts:91-99 | The route `/` and a route named `/__index` import the same data module. |
| CodeGen.PageModuleInjective | packages/react-pages/src/node/dynamic-modules/pages.ts:91-99 | Apart from that pair, distinct routes import distinct data modules. |
| CodeGenDecode.PageListRoundTrip | packages/react-pages/src/node/dynamic-modules/pages.ts:88-109 | The client page list reads back as one lazy import per route, in registry order. Each import loads that route's data module and carries its serialised static data. |
| CodeGenDecode.PageListInSSRRoundTrip | packages/react-pages/src/node/dynamic-modules/pages.ts:111-132 | The server page list reads back as one eager import per route, in registry order. The route at position `i` is bound to `page<i>` and imports its own data module, so no two routes share a binding. |
| CodeGenDecode.OnePageDataRoundTrip | packages/react-pages/src/node/dynamic-modules/pages.ts:134-144 | One page's data module reads back as one namespace import per data key, in insertion order. The key at position `i` is bound to `m<i>` and loads its path as `slash` converts it. |
| JsReplace.ReplaceFirstAt | old/vite-plugin-react-pages.old/src/node/build/ssr.ts:89-94 | A literal first-occurrence replacement changes only the first match and keeps the text around it. |
| JsReplace.ReplaceFirstJsAt | old/vite-plugin-react-pages.old/src/node/build/ssr.ts:89-94 | JavaScript's `replace` with a string pattern puts the `$`-expanded replacement at the first match and keeps the text around it. |
| JsReplace.ReplaceFirstJsLiteral | old/vite-plugin-react-pages.old/src/node/build/ssr.ts:89-94 | Without a `$` in the replacement, JavaScript's `replace` is the literal replacement. |
| Build.DisableHashRouter | old/vite-plugin-react-pages.old/src/node/build/ssr.ts:15-16 | A truthy `define.__HASH_ROUTER__` becomes `false`, a falsy or missing one leaves the options as they are, and every other option and flag is kept, in order. |
| Build.DisableHashRouterIdempotent | old/vite-plugin-react-pages.old/src/node/build/ssr.ts:15-16 | Turning the flag off twice is turning it off once. |
| Build.NormalizeClientBuild | old/vite-plugin-react-pages.old/src/node/build/ssr.ts:57-64 | The build fails exactly for an array result whose length is not 1, with an error that carries nothing else. An array of one is unwrapped, and a single result is used as it is. |
| Build.NormalizeSingletonArray | old/vite-plugin-react-pages.old/src/node/build/ssr.ts:57-64 | An array holding one result means the same as that result alone. |
| Build.SsrBuild | old/vite-plugin-react-pages.old/src/node/build/ssr.ts:13-112 | The options have the hash router turned off, whether the build then fails or not. The build fails exactly when the client result is not one result, or when some page exists and the shell lacks the placeholder; the error names which. |
| Build.PageHtmlSplices | old/vite-plugin-react-pages.old/src/node/build/ssr.ts:86-94 | A page's HTML is the shell with only its first placeholder replaced, by the route-info script and the mount element around the server markup. The rest of the shell is kept. |
| Build.PageHtmlWithoutRoot | old/vite-plugin-react-pages.old/src/node/build/ssr.ts:89-94 | A shell without the placeholder is left as it is. |
| Build.PageHtmlAsWrittenAgrees | old/vite-plugin-react-pages.old/src/node/build/ssr.ts:89-94 | When neither the route info nor the markup holds a `$`, the build's `replace` call gives the literal splice. |
| Build.PageHtmlDollarCounterexample | old/vite-plugin-react-pages.old/src/node/build/ssr.ts:89-94 | Server markup `$$` comes out as `$` in the page the build writes, while the literal splice keeps `$$`. |
| Build.Outputs | old/vite-plugin-react-pages.old/src/node/build/ssr.ts:98 | The written files are exactly the output paths of the pages. |
| Build.WritePages | old/vite-plugin-react-pages.old/src/node/build/ssr.ts:77-102 | Writing the pages adds exactly their output paths and keeps every other file. The file of each page that is the last written there holds that page's HTML under the chosen splice. |
| Build.Fallback | old/vite-plugin-react-pages.old/src/node/build/ssr.ts:104-108 | With no page `/` and an existing `404/index.html`, the root `index.html` becomes a copy of it. Otherwise the files are unchanged, and no other file ever changes. |
| Build.RenderedRootIndex | old/vite-plugin-react-pages.old/src/node/build/ssr.ts:76-102 | Once the shell is removed, a root `index.html` exists before the fallback exactly when a page is written there. |
| Build.NoPagesNeedNoRoot | old/vite-plugin-react-pages.old/src/node/build/ssr.ts:77-84 | With no pages, a shell without the placeholder is no error, and the root `index.html` exists exactly when `404/index.html` does. |
| Build.RootIndexOrigin | old/vite-plugin-react-pages.old/src/node/build/ssr.ts:76-108 | The site's root `index.html` exists exactly when a page is written there, or when there is no page `/` and the `404` page exists. The client's shell never survives. |
| Build.RootIndexOnlyFromRoot | old/vite-plugin-react-pages.old/src/node/build/ssr.ts:98-100 | For plain routes, the root `index.html` is written exactly when `/` is a page. |
| Build.FallbackCopiesNotFound | old/vite-plugin-react-pages.old/src/node/build/ssr.ts:104-108 | With no page `/`, an existing `404` page is also the root page, byte for byte. |
| Build.PlainRoutesLastWriters | old/vite-plugin-react-pages.old/src/node/build/ssr.ts:98-100 | Distinct plain routes never overwrite one another. |
| Build.RenderedPage | old/vite-plugin-react-pages.old/src/node/build/ssr.ts:86-100 | A page that no later page overwrites has its own HTML, under the chosen splice, in its file before the fallback. |
| Build.EveryPageWritten | old/vite-plugin-react-pages.old/src/node/build/ssr.ts:86-108 | For distinct plain routes, every page's file in the site holds the shell with the placeholder replaced by that page's route info and markup under the chosen splice; the fallback never overwrites a page. The build as written gives the literal splice when neither the route info nor the markup holds `$`. |
| Build.SsrBuildDollarCounterexample | old/vite-plugin-react-pages.old/src/node/build/ssr.ts:77-108 | A bare shell, the single page `/` and server markup `$$`: the build as written writes a root page whose mount holds `$`, the literal splice one that holds `$$`. |
| Build.InjectPreloadBeforeHead | old/vite-plugin-react-pages.old/src/node/build/ssr.ts:116-120 | The `modulepreload` tag and a line break go right before the first `</head>`, and the rest of the page is kept. |
| Build.InjectPreloadWithoutHead | old/vite-plugin-react-pages.old/src/node/build/ssr.ts:116-122 | A page without `</head>` gets the tag and a line break in front. |
| Build.InjectPreloadDollarCounterexample | old/vite-plugin-react-pages.old/src/node/build/ssr.ts:116-120 | A file path `$$` comes out as `href="$"` in the helper as written, while the literal insertion keeps `$$`. |

## Left out

- File system I/O is not modelled as effects. Reads are lookups in a fixed map from path to content. The build's output directory is a map from relative path to content. `emptyDir`, `ensureDir`, the copy of the client directory into `outDir` and the removal of both temporary directories are not modelled. A route named `/ssr-tmp` or `/client-tmp` would collide with those directories; this is left out with them.
- The bundler runs (`ssrBuild`, `build`) and the `require` of the server bundle are inputs. These are the client build's returned result, the files it wrote, the keys of `ssrData` and `renderToString`, which is assumed not to throw.
- `gray-matter`, `jest-docblock`, `JSON.stringify` and `slash` are uninterpreted function parameters.
- `globFind` and the default strategy are not part of this model. The pages the default strategy finds are an input sequence.
- A custom strategy is represented by the registrations it performs, in order. The helpers it may call in between are not tied to those registrations.
- Discovery.CollectPagesData: a custom strategy that catches an `addPageData` error and carries on is not modelled. In the model the first error ends the pass.
- `Promise.all` is taken sequentially, in page order. The read cache holds results instead of promises, so a failed read is cached like a successful one.
- The read cache is keyed by path as a plain map. A path spelled like an `Object.prototype` name (`constructor`) is not treated specially.
- `Object.entries` lists integer-like keys first in ascending order. Route ids start with `/` and are never integer-like. Data keys and parsed front-matter fields are assumed not to be integer-like.
- `basePath`, console output, the resolution of `outDir` against the working directory and the commented-out asset lookup are left out. None of them affects the files written.
- CodeGenDecode.PageListRoundTrip: stated only for route ids without `"`, a backslash, a line feed or a carriage return, and static-data JSON without a line feed. The generator does not escape them: such an id ends the string literal early, starts an escape sequence (so the key is not the id) or breaks the line.
- CodeGenDecode.PageListInSSRRoundTrip: stated only for route ids without `"`, a backslash, a line feed or a carriage return, for the same reason.
- CodeGenDecode.OnePageDataRoundTrip: stated only for data keys and converted paths without `"`, a backslash, a line feed or a carriage return, for the same reason.
- Paths are POSIX paths: `path.extname` and `path.join` are modelled as on POSIX hosts. Windows path semantics, where `\` also separates segments and drive letters occur, are not modelled.
- Build.SsrBuild: on a failed build only the options are given. What the output directory holds then (the two temporary directories, the client shell removed) is not modelled.
- Values.Value: a number is an exact real or NaN. The rounding of doubles, the infinities and negative zero are not represented; only truthiness depends on numbers here.
- Build.EveryPageWritten: stated for distinct routes of plain segments. Routes with empty, `.` or `..` segments, which `path.join` normalises and which may collide, are covered only by Build.WritePages' last-writer statement.

## Findings

| source | as written | input that shows it | evidently intended | confidence | as-written member | corrected member |
|---|---|---|---|---|---|---|
| old/vite-plugin-react-pages.old/src/node/build/ssr.ts:89-94 | `clientResult.html.replace(placeholder, text)` treats the inserted text as a replacement pattern, so `$$`, `$&`, `` $` `` and `$'` in the server markup or route info are expanded | a shell that is only `<div id="root"></div>` and server markup `$$`: the page holds `<div id="root">$</div>` | the server markup inserted verbatim | not executed | Build.PageHtmlAsWritten, Build.SsrBuildDollarCounterexample | Build.PageHtml (Build.PageHtmlSplices, Build.EveryPageWritten) |
| old/vite-plugin-react-pages.old/src/node/build/ssr.ts:116-123 | `html.replace(/<\/head>/, tag + "\n</head>")` expands `$` patterns in the file path | html `</head>` and file path `$$`: the tag reads `href="$"` | the file path inserted verbatim | not executed | Build.InjectPreloadAsWritten, Build.InjectPreloadDollarCounterexample | Build.InjectPreload (Build.InjectPreloadBeforeHead) |
| packages/react-pages/src/node/dynamic-modules/pages.ts:197-205 | `exist.data[key]` and `exist.staticData[key]` look keys up on `{}` objects that inherit from `Object.prototype`, so inherited names read as truthy | the first registration of route `/` with key `constructor` and a data path throws a data conflict | a conflict only for a key registered before | not executed | Registry.AddPageDataAsWritten, Discovery.PassRefusesConstructorKey | Registry.AddPageData (Discovery.StepAgrees) |
