# expressive: injector, route mapper and flash store, modelled in Dafny

This project models the core of `expressive`, a small Node.js framework. The
model covers three parts.

- **The dependency injector** (`lib/injector.js`). It keeps a registry from
  names to values. `new Injector(deps)` seeds the registry. `get(spec, name)`
  resolves a string spec in one of these forms:
  - an already-registered name;
  - a bare package (`^\w+$`);
  - a file path (`/`, `./`, `../`);
  - a package path (`::pkg/rel`);
  - a package property (`::pkg::a.b`, optionally fanning out with `.*`).

  It also covers `contains` and `find`, the module names `loadFromPath` derives
  from the depth of a directory walk, the sorted pre-order walk `_walkPath`,
  and the property accessor `getNestedProperty`.
- **The route mapper** (`lib/web/routing.js`):
  - a mapper with a base path, and `mapSubroutes`, which extends the base path
    and restores it;
  - the verb methods, which compose a path, record a URL helper in the shared
    helper table (`path_to`) and hand the route to the application;
  - the helper-name rules `pathHelperName` and `actionName`;
  - the URL generator `makeUrlGenerator`;
  - `resource`, which maps the seven controller actions filtered by
    `only`/`except`.
- **The flash store** `_flash` (`lib/expressives/flash.js`): push, take one
  type, and take all, over the session's map from message type to message
  list.

The Dafny modules follow the source:

| Module | What it holds |
|---|---|
| `Registry` | An ordered dictionary. `Object.keys` order is insertion order. |
| `FileTree` | The file system as a tree, and the walk. |
| `Loader` | Module naming. |
| `SpecGrammar` | The spec regular expressions, hand-coded. |
| `Nested` | The property accessor. |
| `Injection` | The `Injector` class and `get`. |
| `RouteNames` | `actionName` and `pathHelperName`. |
| `Resources` | The resource routes and the names they get. |
| `UrlGen` | The URL generator. |
| `Routing` | `RouteMapper`, the shared helper table and the application's route list. |
| `Flash` | The flash store. |
| `Text`, `JsValues` | The JavaScript strings and values the code relies on. |

The code mutates state in several places:
- the registry;
- the mapper's base path;
- the helper table;
- the application's routes;
- `session.flash`.

Each of these is a class field. The methods that change it are proved against a
function of the old state. Loops (the constructor's copy, the load and fan-out
callbacks, the accessor, `actionName`, `pathHelperName`, the generator's
`re.exec` scan and its query) are methods with loop invariants. Regular
expressions are predicates or hand-written scanners that state what a match
is.

Four places in the code do not do what its design evidently means (see
Findings). The model keeps both readings apart with `Wrappers.Version`:
- `AsWritten` is the program. It is what `Injection.GetSpec`,
  `Injection.Injector.Get`, `Routing.RouteMapper.Route` and the other mapper
  methods, `Routing.PathTo` and `UrlGen.Generate` do when the injector's or the
  mapper's `Env` says `AsWritten`.
- `Corrected` repairs the defect. Its members are named, or their rows say
  "Corrected", so that no corrected behaviour is presented as the program's.

The divergences are these:
- the property grammar (`SpecGrammar.PropertyEnd`): as written it never takes
  a trailing `.*`, so `::pkg::name.*` registers `pkg/name` and never fans out;
  corrected it fans out under `pkg/name/<prop>`;
- the handed route path (`Routing.HandedPath`): as written the generator and
  the application receive the path as passed; corrected, the composed path;
- the URL query (`UrlGen.Generated`): as written it repeats every parameter;
  corrected it holds only the parameters no placeholder took;
- the walk budget: `FileTree.WalkAsWritten` tests the budget for truthiness,
  `FileTree.Walk` stops after k levels. The loader passes no budget, and
  there the two agree (`FileTree.UnbudgetedWalksAgree`).

## Model

| member | source | states |
|---|---|---|
| Registry.Put | lib/injector.js:50 | An assignment sets the key's value. A new key goes to the end of the key order; an existing key keeps its place. Key uniqueness is preserved. |
| Registry.PutAll | lib/injector.js:48-51 | A batch of assignments keeps the registry well-formed. |
| Registry.LastWrite | lib/injector.js:85-91 | The value last written under a key in a batch: none exactly when no write names the key, otherwise the value of a write with no later write to that key. |
| Registry.LastWriteWins | lib/injector.js:85-91 | After a batch of writes, a key holds the value last written to it. A key no write names keeps its old value. The batch defines no other keys. |
| Registry.PutAllExtendsOrder | lib/injector.js:167 | Writes never drop or reorder keys: the old key order is a prefix of the new one. |
| Injection.SeedWrites | lib/injector.js:48-51 | The constructor's writes skip `injector` and take every other value from the seed. |
| Injection.SeedWritesCover | lib/injector.js:48-51 | Every seed key other than `injector` is written. |
| Injection.SeedRegistry | lib/injector.js:45-51 | The constructor's loop builds the seeded registry. |
| Injection.SeededRegistry | lib/injector.js:43-51 | `injector` is the first key and names the injector itself, whatever the seed says. Every other key is present exactly when the seed has it, with the seed's value. |
| Injection.Injector.constructor | lib/injector.js:43-52 | A new injector's registry is the seeded registry. |
| Injection.Injector.Register | lib/injector.js:151-153 | A plain registry write. Afterwards `contains(k)` holds exactly when the value written is truthy. |
| Injection.MatchingPositions | lib/injector.js:167-169 | The positions the filter keeps are strictly increasing and all match. Every matching position is among them. |
| Injection.MatchingNames | lib/injector.js:167-169 | The filter keeps exactly the registered names the pattern accepts. It keeps them in key order and once per matching position. |
| Injection.FindIn | lib/injector.js:164-176 | `find` returns null when no name matches. |
| Injection.FindOrder | lib/injector.js:164-176 | When some name matches, `find` returns an array with one element per matching position. Element i is the value at the i-th matching position in key order, so the array keeps key order and multiplicity. A value is in the array exactly when some matching name holds it. With `single`, `find` returns the array's first element, and no name before the first matching position matches. |
| Injection.FindListsPositions | lib/injector.js:167-174 | `find`'s array lists the values at the matching positions, in order. `single` gives its first element. |
| Injection.FoundValue | lib/injector.js:167-172 | A value is in `find`'s array exactly when some matching name holds it. |
| Injection.FirstMatch | lib/injector.js:174 | No name before the first matching position matches. |
| Injection.LoadInto | lib/injector.js:83-93 | Loading keeps the registry well-formed. Its only modelled failure is a missing path. |
| Injection.SelectProperty | lib/injector.js:121-136 | The property branch keeps the registry well-formed. It can only fail with a TypeError. |
| Injection.GetSpec | lib/injector.js:62-141 | `get` throws InvalidSpecification exactly for a spec that is not a string, array or function. A registered truthy name returns its value and leaves the registry unchanged. The registry stays well-formed. It classifies a spec with the grammar of `Env.version`: `AsWritten` is the program; `Corrected` admits a trailing `.*`. |
| Injection.SelectPropertyExtendsOrder | lib/injector.js:123-135 | The property branch only adds names. |
| Injection.GetExtendsOrder | lib/injector.js:62-141 | `get` never drops or reorders registered names. |
| Injection.PackageLoadedOnce | lib/injector.js:74-81 | A bare package is loaded and registered. A second `get` returns the same value and changes nothing. |
| Injection.FalsyEntryIsReloaded | lib/injector.js:74-80 | A registered falsy value counts as absent, so `get` loads the package again. |
| Injection.FilePathLoad | lib/injector.js:83-93 | A file-path spec walks the resolved path. A missing path throws and writes nothing. Otherwise: one module gives that module, several give the array, none gives undefined, and every renamed module name holds its last written value. |
| Injection.FilePathGet | lib/injector.js:83-93 | A file-path spec that is not registered loads the resolved path. |
| Injection.LoadIntoLoads | lib/injector.js:83-93 | A missing path throws and writes nothing. Otherwise: one module gives that module, several give the array, none gives undefined, and every renamed module name holds its last written value. |
| Injection.PropertySpecRegisters | lib/injector.js:117-136 | `::pkg::a.b` on a registered package registers the nested value under `prefix/a/b` and returns it. The prefix is the name, or the package. |
| Injection.FanOutKeysPresent | lib/injector.js:127-130 | Every key of a fan-out batch is in the registry afterwards. |
| Injection.FanOutSpecWrites | lib/injector.js:125-131 | With a registered package, a fan-out spec's writes are exactly the fan-out batch over the selected value's own property names. The prefix keeps the `.*` as written and drops it when corrected. |
| Injection.FanOutRegistersEveryProperty | lib/injector.js:113-131 | Corrected: for `::pkg::name.*`, every own property p of `name`'s value is registered under `pkg/name/p`. |
| Injection.FanOutSpecAsWritten | lib/injector.js:113-135 | As written: `::pkg::name.*` registers the value of `name` under `pkg/name` and returns it. No property is fanned out. |
| Injection.Injector.LoadAll | lib/injector.js:83-93 | The load branch as a method: the result and the new registry are those of the load function. |
| Injection.Injector.RegisterModules | lib/injector.js:85-91 | The load callback's loop registers every module in order and collects the values. |
| Injection.Injector.FanOut | lib/injector.js:127-130 | The fan-out loop registers every own property in order and collects the values. |
| Injection.Injector.Contains | lib/injector.js:151-153 | `contains(k)` holds exactly when k is a registered name holding a truthy value. |
| Injection.Injector.Find | lib/injector.js:164-176 | `find` is null when no name matches. Otherwise it lists the values at the matching positions in key order, or with `single` gives the first of them. |
| Injection.Injector.Get | lib/injector.js:62-141 | `get` as a method: its result and the new registry are those of the `get` function, under the same `Env.version`. |
| FileTree.SplitPathString | lib/injector.js:185 | Splitting an absolute path string on `/` gives `""` followed by its segments. |
| FileTree.Normalize | lib/injector.js:85 | Normalising never produces an empty, `.` or `..` segment. |
| FileTree.Resolve | lib/injector.js:85 | Resolving against a clean base, or resolving an absolute path, gives a clean path. |
| FileTree.NameLeTotal | lib/injector.js:217 | The default string order is total. |
| FileTree.InsertByName | lib/injector.js:217 | Insertion adds exactly the entry. |
| FileTree.InsertByNameSorted | lib/injector.js:217 | Insertion keeps a listing sorted. |
| FileTree.SortByName | lib/injector.js:217 | The sorted listing is a permutation of the listing. |
| FileTree.SortByNameSorted | lib/injector.js:217 | The sorted listing is sorted, and it is a permutation of the listing. |
| FileTree.SortExample | lib/injector.js:217 | `b.js`, `a.js`, `c` sorts to `a.js`, `b.js`, `c`. |
| FileTree.Walk | lib/injector.js:210-219 | A walk visits its start first, at the start's depth. |
| FileTree.WalkDepths | lib/injector.js:210-218 | Every visit lies below the start. Its depth is the start's depth plus the number of segments below the start. |
| FileTree.WalkEntriesDepths | lib/injector.js:217-218 | Every visit of the children's walks lies strictly below the parent, one level deeper per segment. |
| FileTree.WalkLeaf | lib/injector.js:211-215 | A file, or an empty directory, is visited alone. |
| FileTree.WalkVisitsChildrenSorted | lib/injector.js:210-219 | A directory listed as `b.js`, `a.js`, `c/` is visited first, then `a.js`, `b.js` and `c` at depth 1. |
| FileTree.WalkWithinBudget | lib/injector.js:214-216 | With a budget of k levels, no visit is more than k levels below the start. |
| FileTree.WalkPath | lib/injector.js:204-206 | The walk throws when the root does not exist. Otherwise it is the walk from the root at depth 0. |
| FileTree.WalkAsWritten | lib/injector.js:214-216 | The as-written walk also visits its start first. |
| FileTree.UnbudgetedWalksAgree | lib/injector.js:182-219 | Without a budget, as `loadFromPath` walks, the as-written walk visits exactly what the walk visits. |
| FileTree.BudgetOfOneAsWrittenReachesDepthTwo | lib/injector.js:214-216 | As written, `maxDepth` 1 still reaches a file at depth 2. |
| FileTree.BudgetOfOneStopsAtDepthOne | lib/injector.js:214-216 | Corrected, a budget of 1 does not reach depth 2. |
| Loader.ModuleNameOfPath | lib/injector.js:185-186 | A file `depth` levels down is named by its last `depth + 1` segments joined with `/`, with the first `.js` removed. |
| Loader.LoadedNameBelowRoot | lib/injector.js:185-186 | In a walk from a root, a file's name is the root's own name followed by the file's path below the root. |
| Loader.FileVisits | lib/injector.js:184 | Directories produce no module: exactly the file visits are kept. |
| Loader.LoadFromPath | lib/injector.js:179-201 | `loadFromPath` fails exactly when the root does not exist, with that path in the error. Otherwise it gives the modules of the walk from the root. |
| Loader.Renamed | lib/injector.js:86-88 | Without a name, the derived name is kept. |
| Loader.RenameReplacesFirstSegment | lib/injector.js:87 | A given name replaces only the leading `[\w~\-.]+` run of the derived name. |
| Loader.RenameKeepsUnmatchedName | lib/injector.js:87 | A derived name that does not start with such a character is kept. |
| JsValues.PropLookup | lib/injector.js:229 | A property is found exactly when some own property has the key, and the value is that property's. |
| JsValues.IndexOfKey | lib/injector.js:231 | A key names an array index exactly when it is a canonical numeral. |
| JsValues.Get | lib/injector.js:229-231 | Reading a property throws a TypeError exactly on undefined and null. On an object it reads the own property, or undefined when there is none. |
| JsValues.IndexKeys | lib/web/routing.js:124 | The keys of an n-element array are the numerals 0 to n - 1. |
| JsValues.ArrayOwnNamesReadBack | lib/injector.js:127-129 | Every own property name of an array reads back its element, or its length. |
| Nested.ExecPart | lib/injector.js:228 | The part's pattern fails exactly when the part has no word character. Otherwise it captures a non-empty word run and, if present, digits. |
| Nested.ExecWord | lib/injector.js:228 | A word part is captured whole, with no index. |
| Nested.ExecIndexed | lib/injector.js:228 | `word[digits]` captures the word and the digits. |
| Nested.IndexKey | lib/injector.js:231 | `parseInt` of digits reads the canonical index key with the same value. |
| Nested.Step | lib/injector.js:226-232 | One part leaves `''` and an empty part alone. It can only throw a TypeError. |
| Nested.Descend | lib/injector.js:225-233 | The walk down the parts can only throw a TypeError. |
| Nested.NestedProperty | lib/injector.js:223-235 | The accessor can only throw a TypeError. |
| Nested.GetNestedProperty | lib/injector.js:223-235 | The accessor's loop computes the accessor function. |
| Nested.EmptyPathIsIdentity | lib/injector.js:223-235 | An empty path gives the object back. |
| Nested.SentinelAbsorbs | lib/injector.js:226 | Once the value is `''`, every remaining part leaves it unchanged. |
| Nested.MissingSegmentStops | lib/injector.js:229 | A missing property yields `''`, whatever follows in the path. |
| Nested.StepWord | lib/injector.js:229 | A word part steps to the truthy property it names. |
| Nested.StepIndexed | lib/injector.js:230-232 | `list[i]` steps to element i of the array under `list`. |
| Nested.DottedPath | lib/injector.js:225-233 | `a.b` reads property `b` of property `a`. |
| Nested.IndexedPath | lib/injector.js:228-232 | `list[i]` reads element i of a non-empty array property. |
| SpecGrammar.PackageEnd | lib/injector.js:113 | The package name of `::name` ends within the spec. |
| SpecGrammar.PropEnd | lib/injector.js:113 | The as-written property path is a non-empty match within the spec. |
| SpecGrammar.PropEndWithFanOut | lib/injector.js:125 | The corrected match extends the property path by two characters exactly when `.*` follows it. |
| SpecGrammar.PropertyEnd | lib/injector.js:113 | The property path under either reading is a non-empty match within the spec. |
| SpecGrammar.PropTailDots | lib/injector.js:113 | In what `(\.\w+\|\*)*` matches, every `.` is followed by a word character. |
| SpecGrammar.PropertyPathNeverFansOut | lib/injector.js:113-125 | As written, a matched property path never contains `.*`. |
| SpecGrammar.MatchPackagePath | lib/injector.js:96 | A package-path match gives a non-empty package name and a non-empty relative path, in place in the spec. |
| SpecGrammar.MatchPackageProperty | lib/injector.js:113 | A package-property match gives a non-empty package name and property path, in place in the spec. `AsWritten` uses the code's grammar; `Corrected` also takes a trailing `.*`. |
| SpecGrammar.Classify | lib/injector.js:72-113 | The spec forms are tried in `get`'s order: a bare package exactly when `^\w+$` matches; a file path exactly when that fails and a file-path prefix is present; the `::` forms carry non-empty parts. The property grammar is the code's under `AsWritten`. |
| SpecGrammar.PackageShorter | lib/injector.js:113-118 | The package a property spec loads is strictly shorter than the spec, so the nested `get` ends. |
| SpecGrammar.StripFanOut | lib/injector.js:123 | Exactly one trailing `.*` is removed. |
| SpecGrammar.PackagePathNeedsSlash | lib/injector.js:96 | A `::pkg::...` spec is not a package path. |
| SpecGrammar.FanOutSpecClassifies | lib/injector.js:113-126 | For `::pkg::name.*`, the as-written reading is the property `name`, which is not a fan-out. The corrected reading is the fan-out `name.*`, whose stripped path is `name`. |
| SpecGrammar.ClassifyFanOutSpec | lib/injector.js:113 | `::pkg::name.*` reads as the property `name` as written, and as `name.*` corrected. |
| SpecGrammar.MatchShapedFanOut | lib/injector.js:113 | The package-property match of `::pkg::name.*` stops before `.*` as written, and takes it in when corrected. |
| SpecGrammar.WordHasNoDot | lib/injector.js:126-133 | A word property path has no `.`, so `replace('.', path.sep)` leaves it unchanged. |
| Flash.FlashStep | lib/expressives/flash.js:7-22 | A push returns the new length of the type's list. Take-one returns a list and removes the type. Take-all returns the whole store and leaves it empty. |
| Flash.Request.Flash | lib/expressives/flash.js:5-23 | The call throws without a session. Otherwise the result and the new `session.flash` are those of the step function. |
| Flash.PushAppends | lib/expressives/flash.js:8-14 | Push appends the message to its type's list, creating the list if needed, and returns the new length. Other types are unchanged. |
| Flash.TakeRemovesType | lib/expressives/flash.js:15-18 | Take-one returns the type's list, or `[]`, and removes the type. Other types are unchanged. |
| Flash.TakeTwiceIsEmpty | lib/expressives/flash.js:16-18 | Taking the same type twice gives `[]` the second time. |
| Flash.TakeAllEmpties | lib/expressives/flash.js:19-22 | Take-all returns the store as it was and leaves it empty. Any take that follows returns nothing. |
| Flash.PushesThenTake | lib/expressives/flash.js:14-18 | Messages pushed one after another come back, after the earlier ones, in the order they were pushed. |
| RouteNames.LastMatch | lib/web/routing.js:100-105 | The result is none exactly when no pattern matches. Otherwise it is a matching action with no later action matching. |
| RouteNames.ActionName | lib/web/routing.js:90-106 | The loop over the actions computes the last-match function on METHOD + lower-cased path. |
| RouteNames.StripFormatSuffix | lib/web/routing.js:75 | Stripping the format suffix only shortens the token from its end. |
| RouteNames.CollectNameParts | lib/web/routing.js:67-86 | The `forEach` builds exactly the name parts. |
| RouteNames.PathHelperName | lib/web/routing.js:55-88 | The method computes the helper name: `root` for `''` and `/`, otherwise the name parts joined with `_`. |
| RouteNames.StripKeepsPlain | lib/web/routing.js:70-75 | Stripping the format never turns a plain token into a variable. |
| RouteNames.PushedNamesPlain | lib/web/routing.js:68-86 | No pushed name part is a `:` variable. |
| RouteNames.NamePartsPlain | lib/web/routing.js:68-87 | No name part is a `:` variable. A last token that names the action comes first. |
| Resources.Without | lib/web/routing.js:185-187 | The filter keeps exactly the actions not excepted. |
| Resources.WithoutKeepsOrder | lib/web/routing.js:185-187 | The filter keeps the actions' order. |
| Resources.SelectActions | lib/web/routing.js:183-187 | The mapped actions are exactly those of `only` (or all seven) that are not excepted, in their order. |
| Resources.HelperOfCollectionPath | lib/web/routing.js:55-88 | `/name.:format?` gets the helper `name`. |
| Resources.IndexAction | lib/web/routing.js:90-105 | GET `/name.:format?` is `index`. |
| Resources.CreateAction | lib/web/routing.js:90-105 | POST `/name.:format?` is `create`. |
| Resources.NewAction | lib/web/routing.js:90-105 | GET `/name/new.:format?` is `new`. |
| Resources.EditAction | lib/web/routing.js:90-105 | GET `/name/:id/edit.:format?` is `edit`. |
| Resources.ShowAction | lib/web/routing.js:90-105 | GET `/name/:id.:format?` is `show`. |
| Resources.UpdateAction | lib/web/routing.js:90-105 | PUT `/name/:id.:format?` is `update`. |
| Resources.DestroyAction | lib/web/routing.js:90-105 | DELETE `/name/:id.:format?` is `destroy`. |
| Resources.NewHelper | lib/web/routing.js:55-88 | The `new` route's helper is `new_` followed by the singular name. |
| Resources.EditHelper | lib/web/routing.js:55-88 | The `edit` route's helper is `edit_` followed by the singular name. |
| Resources.HelperOfMemberPath | lib/web/routing.js:55-88 | `/name/:id.:format?` gets the singular name as its helper. |
| Resources.ResourceRouteNames | lib/web/routing.js:172-195 | Every resource action's route is recognised as that action. Its helper is the name meant for it: `name`, `new_x`, `edit_x` or `x`, where `x` is the singular name. |
| UrlGen.NextMatch | lib/web/routing.js:114-117 | `re.exec` finds the first `:\w` at or after the scan position, or reports that there is none. |
| UrlGen.NameEnd | lib/web/routing.js:114 | The captured name is the whole word run after the colon. |
| UrlGen.Used | lib/web/routing.js:115-121 | The names the corrected generator leaves out of the query are exactly the placeholders whose parameter is truthy. The code never collects them. |
| UrlGen.Query | lib/web/routing.js:124-128 | The query holds exactly the keys not used, each with its parameter. |
| UrlGen.StripFormat | lib/web/routing.js:134 | Exactly one trailing `.:format?` is removed. |
| UrlGen.FillPlaceholders | lib/web/routing.js:117-122 | The `while` loop substitutes each placeholder in turn, in template order. |
| UrlGen.BuildQuery | lib/web/routing.js:124-128 | The `forEach` builds the query. |
| UrlGen.Generate | lib/web/routing.js:109-138 | The generator as written: the query repeats every parameter, because `usedParam` stays empty. |
| UrlGen.GenerateCorrected | lib/web/routing.js:109-138 | Corrected: the query holds only the parameters no placeholder took. |
| UrlGen.ScanStep | lib/web/routing.js:117-122 | One pass of the scan carries the loop invariants over. |
| UrlGen.PlaceholdersStep | lib/web/routing.js:114-117 | The scan finds the first `:` followed by a word character, and captures its word. |
| UrlGen.OnePlaceholder | lib/web/routing.js:114-117 | `pre:k post.:format?` has exactly the placeholders `k` and `format`. |
| UrlGen.ReplaceAfterPlain | lib/web/routing.js:120 | `replace(':' + k, v)` replaces the first occurrence. |
| UrlGen.SubstitutedPath | lib/web/routing.js:116-134 | For `{k: v}`, `:k` is replaced by v, the format is stripped, and only `k` counts as used. |
| UrlGen.SubstitutedParamLeavesQuery | lib/web/routing.js:115-136 | Corrected: `{k: v}` on `pre:k post.:format?` gives `pre v post` with no query. |
| UrlGen.AsWrittenRepeatsSubstitutedParam | lib/web/routing.js:115-136 | As written, the same call also appends `?k=v`. |
| UrlGen.SubstituteNothing | lib/web/routing.js:117-122 | With no parameters, nothing is substituted. |
| UrlGen.FalsyParamsGiveBarePath | lib/web/routing.js:109-141 | With falsy parameters, as `toString` passes, both generators give the template without its format suffix. |
| UrlGen.ScalarFillsId | lib/web/routing.js:130-134 | A non-object parameter replaces `:id` and the format is stripped, in both generators. |
| UrlGen.AsWrittenQueryExactlyWithKeys | lib/web/routing.js:124-136 | As written, `?query` is appended exactly when the parameters have a key. |
| UrlGen.QueryExactlyWithUnusedKey | lib/web/routing.js:124-136 | Corrected, `?query` is appended exactly when some key was not substituted. |
| UrlGen.QueryDifference | lib/web/routing.js:115-136 | The generators agree when nothing was substituted, and for non-object parameters. |
| Routing.InitialBase | lib/web/routing.js:11-17 | The constructor strips one trailing `/` from a string. Objects and falsy values give `''`. A truthy number or boolean throws. |
| Routing.RouteMapper.constructor | lib/web/routing.js:11-17 | A new mapper's base path is the initial base path. |
| Routing.HelperTable.constructor | lib/web/routing.js:18 | The shared helper table starts empty. |
| Routing.ComposePath | lib/web/routing.js:37 | The path starts with the base (minus one trailing `/`) and `/`, followed by the path minus one leading `/`. |
| Routing.ComposeRoot | lib/web/routing.js:37 | At the root, a path that starts with `/` is kept as it is. |
| Routing.PrefixNests | lib/web/routing.js:22 | A subroute's base path extends its parent's. |
| Routing.RouteMapper.Route | lib/web/routing.js:28-52 | A verb method records the helper and the route, or throws for a verb the mapper lacks. As written, it hands the path as passed; corrected, the composed path. |
| Routing.RouteMapper.MapSubroutes | lib/web/routing.js:20-25 | The callback runs under the extended base path, which is restored on return. |
| Routing.RouteMapper.Run | lib/web/routing.js:20-25 | A callback's calls run in order until one throws. |
| Routing.RouteMapper.RunCall | lib/web/routing.js:20-25 | One call of a callback. |
| Routing.RouteMapper.MapResourceActions | lib/web/routing.js:190-196 | The actions' `forEach` maps each route in turn. |
| Routing.RouteMapper.Resource | lib/web/routing.js:155-202 | `resource` maps the selected actions, then the callback's subroutes under the resource name. |
| Routing.MapActionsKeepsBase | lib/web/routing.js:190-196 | Mapping actions leaves the base path unchanged. |
| Routing.ExecAllKeepsBase | lib/web/routing.js:20-25 | Calls that do not throw leave the base path as they found it. |
| Routing.ThrowInSubroutesKeepsSubBase | lib/web/routing.js:22-24 | When the callback throws, the base path stays extended. |
| Routing.RouteStepExtends | lib/web/routing.js:37-48 | Corrected: a route only adds under the mapper's base path. |
| Routing.MapActionsExtends | lib/web/routing.js:190-196 | Corrected: mapping actions only adds under the base path. |
| Routing.ExecAllExtends | lib/web/routing.js:20-53 | Corrected: calls only add under the base path. |
| Routing.SubroutesExtends | lib/web/routing.js:20-25 | Corrected: subroutes only add under the parent's base path. |
| Routing.ResourceStepExtends | lib/web/routing.js:155-202 | Corrected: a resource only adds under the base path. |
| Routing.MappingStaysUnderBase | lib/web/routing.js:20-53 | Corrected: whatever the calls, and whether or not one throws, routes keep their order and no helper disappears. Every route and helper the calls add lies under the base path. |
| Routing.AsWrittenRouteEscapesBase | lib/web/routing.js:37-47 | As written, `get('/users')` under `/admin` hands `/users` to the application. Corrected, it hands `/admin/users`. |
| Routing.PathTo | lib/web/routing.js:207 | `path_to[name]` exists exactly when a helper was recorded under that name. It gives that helper's URL, as written or corrected as `Env.version` says. |
| Routing.MapOneAction | lib/web/routing.js:190-196 | One resource action maps its route with the controller's handler. |
| Routing.ResourceActionMapped | lib/web/routing.js:190-196 | At the root, an action adds its route and records its generator under the helper name meant for it. |
| Routing.ShowPathFillsId | lib/web/routing.js:116-134 | The show route's generator fills in the id. As written it gives `/name/v?id=v`; corrected, `/name/v`. |
| Routing.ShowResourcePath | lib/web/routing.js:190-207 | After mapping `show` at the root, `path_to.<singular>({id: v})` is `/name/v?id=v` as written and `/name/v` corrected. |
| Text.ReplaceFirst | lib/injector.js:186 | A string-pattern `replace` changes only the first occurrence. Without one, the string is kept. |
| Text.Split | lib/web/routing.js:65 | The parts contain no separator and join back into the string. |
| Text.SplitJoin | lib/injector.js:185 | Joining separator-free parts and splitting gives the parts back. |
| Text.DropTrailing | lib/web/routing.js:16 | `replace(/\/$/, '')` drops exactly one trailing slash. |
| Text.DropLeading | lib/web/routing.js:37 | `replace(/^\//, '')` drops exactly one leading slash. |
| Text.DigitsValueOfNatToString | lib/injector.js:231 | The numeral of n reads back as n. |

## Left out

- Prototype properties are not modelled: a registered value is its own property, and `registry[k]` never sees `Object.prototype`.
- `Object.keys` orders integer-like keys before other keys. The registry keeps plain insertion order.
- `Array.prototype.sort` compares UTF-16 code units. Here names compare by `char`, which is the same order for names with no character above U+FFFF.
- A `$` pattern in a replacement string of `String.prototype.replace` is not expanded.
- `parseInt` of an index beyond 2^53 loses precision in JavaScript. Here it is exact.
- The `injectr` sandbox and the filtered global context are not modelled. Loading a file yields the exports the tree records for it.
- Injection.LoadInto: a module that fails to parse or throws at top level is not modelled. In the code that error leaves `get`, and the modules the walk registered before it stay in the registry; the model's loads never throw, so neither that error nor the partial registry occurs.
- Injection.GetSpec: `OtherSpec` is meant for values that are neither strings, arrays nor functions. The datatype does not forbid a `Str` or `Arr` payload, and `get` treats any `OtherSpec` as an invalid spec.
- Flash.FlashStep: take-all returns the session's store object, whose keys come in insertion order. The model's store is a map, so that order is not kept.
- `find` with a `g`-flagged RegExp keeps `lastIndex` between `test` calls and can skip names. The predicate that stands for the pattern is stateless, so this is not modelled.
- The verb methods forward every argument to `app[verb]`, so several handlers can be given (lib/web/routing.js:47). A `VerbCall` carries one handler.
- Node module resolution (`require`, `require.resolve`, `path.dirname`) is a given map from package names to values and from package names to directories. `path.sep` is `/`.
- Array and function specs fall through and return undefined. The currying the header comment describes is not implemented, so it is not modelled.
- RegExp route paths are left out (lib/web/routing.js:32-35 and 56-58). Only string paths are modelled.
- `find` takes its regular expression as the predicate it decides.
- lingo's `singularize`, `pluralize` and `isSingular` are function parameters. So are `querystring.stringify`, `util.format` and `String()` of a parameter. A flash call with more than two arguments is not modelled.
- `resource` shifts its arguments when the name is omitted (lib/web/routing.js:157-166). That is not modelled; the name, options and callback are given directly.
- A function passed as URL parameters is treated like an object. An `InjectorRef` parameter is treated as an object without keys.
- JsValues.Get: the injector instance (`InjectorRef`) has no own properties in the model. The real instance has an own `registry` property (lib/injector.js:45), so in the code `get('::injector::registry')` registers `injector/registry`. In the model, property specs and fan-outs over `injector` read nothing.
- Flash.FlashStep: message types and messages are strings. The code pushes any truthy message, and a falsy non-string message such as `0` takes instead of pushing.
- The flash function throws on a `null` session as well as an `undefined` one, since `null.flash` is a TypeError. Both are modelled as the session error.
- Case mapping is ASCII only.
- The debug message for a verb the application lacks is not modelled; the route is not handed to the application.
- The module-level mapper, its registration with the injector, and the `app.locals.path_to` wiring (lib/web/routing.js:204-207) are not modelled as code. `Routing.PathTo` reads the helper table the way `path_to` does.
- A callback is modelled as the script of calls it makes on the mapper (a `Call` sequence), not as arbitrary code.
- Routing.RouteMapper.constructor: requires a base path the constructor accepts. The source throws a TypeError for a truthy number or boolean, and `Routing.InitialBase` models that throw.
- Members whose row says "Corrected" state what the repaired code does, not what the program does. Their as-written counterparts are listed under Findings.
- A module's derived name keeps the root directory's own name (`root/sub/mod`), because `slice(-(depth + 1))` includes it. The code is followed.
- A second `get` of a file-path spec loads the path again: the spec string is never a registry key, so `contains(spec)` stays false. `Injection.FilePathLoad` states what one call does.

## Findings

| source | as written | input that shows it | evidently intended | confidence | as-written member | corrected member |
|---|---|---|---|---|---|---|
| lib/injector.js:214-216 | The budget is tested for truthiness. A budget of 1 is decremented to 0, which is falsy, so the children recurse without limit. | `_walkPath('r', cb, undefined, 1)` on `r/a/b.js` visits `b.js` at depth 2. | A budget of k levels stops k levels below the start. | not executed | FileTree.BudgetOfOneAsWrittenReachesDepthTwo | FileTree.WalkWithinBudget |
| lib/injector.js:113-125 | The property grammar `\w+(\.\w+\|\*)*` can never match `.*`, so the fan-out test `/\.\*/` never succeeds. | `get('::pkg::name.*')` registers the value of `name` under `pkg/name` and nothing under `pkg/name/<prop>`. | `.*` fans out over the own properties of `name`, under `pkg/name/<prop>`. | not executed | Injection.FanOutSpecAsWritten | Injection.FanOutRegistersEveryProperty |
| lib/web/routing.js:41-47 | The helper is named after the composed path. The generator and the application, however, receive `arguments`, the path as passed, not the composed one. | Under base `/admin`, `get('/users', h)` registers the route `/users`. | The route and its generator use `/admin/users`. | not executed | Routing.AsWrittenRouteEscapesBase | Routing.MappingStaysUnderBase |
| lib/web/routing.js:115-128 | `usedParam` is never filled, so every parameter also goes into the query string, including those already substituted into the path. | `user({id: 7})` on `/users/:id.:format?` gives `/users/7?id=7`. | Only parameters no placeholder took go into the query. | not executed | UrlGen.AsWrittenRepeatsSubstitutedParam | UrlGen.SubstitutedParamLeavesQuery |
