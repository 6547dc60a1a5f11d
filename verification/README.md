# ui-schema-builder core, modelled in Dafny

ui-schema-builder turns declarative page descriptions into Next.js pages. There are three parts:

- **Component registry.** A registry holds the catalogue of component types. Each type has a property contract and a list of shadcn/ui install units it depends on.
- **Schema generator.** It walks a page schema's component tree and does three things:
  - computes the union of the dependency lists of every type it reaches, and runs one install command for that union;
  - collects one import line per distinct component type;
  - serialises the tree to JSX-like text and writes `<pages>/<name>/page.tsx`.
- **Page generator.** It handles page configurations whose top-level component is a data table. It validates nothing itself, fills a fixed data-table template, and rejects any other component type.

A zod validator defines which table configurations are accepted. The customers page holds a hand-written column plan.

The model is pure and functional. JavaScript values are the `Json.Value` datatype. A function value is kept by its source text, and a missing property stands for `undefined`.

The generators do not act on the outside world. Instead they return a `Effects.Run`: the directories created, the commands run and the files written, in order, plus the fault that stopped the run. A thrown exception is that fault. Because there is no `catch` anywhere, the first fault ends the run.

Modules, one per source file plus helpers:

| module | models |
|---|---|
| `Json` | JavaScript values, `obj[k]`, truthiness, `JSON.stringify`, template interpolation |
| `Text` | `toLowerCase`, `charAt(0).toUpperCase() + slice(1)`, `slice(1)`, `join`, substring occurrence |
| `OrderedSet` | JavaScript `Set` as an insertion-ordered sequence without duplicates |
| `Types` | the schema records of `src/core/types.ts` |
| `Icons` | the key set of the icon table |
| `Registry` | the component registry |
| `Catalogue` | the eleven built-in registrations and the icon component |
| `TableSchema` | the table-configuration validator, and its inverse (an encoder) |
| `Effects` | recorded effects and sequencing without `catch` |
| `Generator` | the schema generator |
| `PageGenerator` | the configuration-driven page generator |
| `CustomersPage` | the customers table's column plan |

`generatePages` of both generators has no `try`/`catch` around `generatePage`, so the first failing page stops the batch. The model states this in `Generator.GeneratePagesStopsAtFirstFailure` and `PageGenerator.GeneratePagesStopsAtFirstUnsupported`.

## Model

| member | source | states |
|---|---|---|
| Types.PropTypeNameRoundTrip | src/core/types.ts:27-32 | A property kind is one of exactly five literals, and each literal reads back as its kind. |
| Types.ParsePropType | src/core/types.ts:28 | Only the five kind names are accepted, and an accepted name is the name of the kind returned. |
| Icons.KeyOf | src/components/ui/icons.tsx:16-25 | Icon lookup compares names exactly and case-sensitively: a hit is the key of that exact name, and a miss means no key has that name. |
| Icons.KeyNameRoundTrip | src/components/ui/icons.tsx:16-25 | Every icon key is found under its own exported name. |
| OrderedSet.InsertAll | src/core/generator.ts:69-74 | Adding to a `Set` keeps what it held, gains exactly the new elements, and never holds a duplicate. |
| OrderedSet.InsertAllAppend | src/core/generator.ts:72-98 | Adding two batches one after the other is adding their concatenation, which is why the traversal may add types node by node. |
| OrderedSet.InsertAllMap | src/core/generator.ts:122-143 | Collecting the images of an injective map into a `Set` gives the images of the distinct elements, in first-occurrence order. |
| Text.CapitalizeFirstChangesOnlyTheHead | src/core/generator.ts:188-190 | Capitalising keeps the length, upper-cases only the first character and leaves the rest and the empty string unchanged. |
| Text.JoinContainsEach | src/core/generator.ts:143 | Every piece of a join occurs in the joined text. |
| Json.Get | src/core/generator.ts:79-85 | A property lookup finds a value exactly when some property has that key, and the value found is one of the object's own properties. |
| Json.Stringify | src/core/generator.ts:158 | `JSON.stringify` yields `undefined` exactly for a function. |
| Json.StringifyItems | src/core/generator.ts:158 | Each array element is written as its own JSON, and a function element as `null`. |
| Json.StringifyMembers | src/core/generator.ts:172 | An object is written with at most one entry per property, and with one per property exactly when no property holds a function. |
| Json.StringifyMembersAt | src/core/generator.ts:172 | An object is written as exactly the entries of its non-function properties, in property order: each is the quoted key, a colon and the value's JSON, at the position given by how many non-function properties precede it. |
| Registry.Register | src/core/registry.ts:16-21 | Registering files the item under its name and leaves every other name's entry alone. It warns exactly when the name was already taken, and then keeps the insertion order; otherwise it appends the name. |
| Registry.GetAll | src/core/registry.ts:27-29 | `getAll` lists each registered item once, in order of first registration, and every item it lists is what `get` returns for its name. |
| Registry.GetAllAfterRegister | src/core/registry.ts:16-29 | Re-registering a name replaces its entry where it stands in `getAll`; a new name is appended at the end. |
| Registry.OverwriteKeepsSecond | src/core/registry.ts:16-24 | After two registrations under one name, only the second can be retrieved, the second one warns, and the catalogue size is unchanged. |
| Registry.InstallDependencies | src/core/registry.ts:31-36 | `installDependencies` issues no install request, whether or not the schema declares dependencies. |
| Catalogue.CatalogueLookup | src/core/components.ts:16-192 | After the built-in registrations, `get` returns each one under its name, and `getAll` lists the eleven names in registration order. |
| Catalogue.CatalogueTypesMatchNames | src/core/components.ts:16-192 | Every catalogue entry is filed under its schema's own type name. |
| Catalogue.CatalogueDependencies | src/core/components.ts:16-121 | DataTable depends on table, button, input, dropdown-menu and badge; Card depends on card; Button depends on button; every other type declares no dependencies. |
| Catalogue.CatalogueRequiredProperties | src/core/components.ts:16-29 | DataTable requires `config` and `data`, and Link requires `href`. |
| Catalogue.IconComponent | src/core/components.ts:139-143 | The icon component draws only keys whose exact name is the lower-cased requested name. A lower-cased name that is an inherited `Object.prototype` property (`constructor`, `__proto__`) passes the `!Icon` test and fails at render. Every other name renders nothing. |
| Catalogue.InheritedNamesFailToRender | src/core/components.ts:140-142 | `Constructor` and `CONSTRUCTOR` reach the inherited `constructor`, and `__proto__` reaches the prototype, so both fail at render; `toString` lower-cases to a name the table lacks and renders nothing. |
| Catalogue.CamelCaseIconsUnreachable | src/core/components.ts:139-142 | No requested name, in any case, reaches `chevronDown`, `chevronUp` or `chevronsUpDown`. |
| Catalogue.IconComponentIgnoresCase | src/core/components.ts:139-142 | `Pencil`, `pencil` and `TRASH` are found, and `chevronDown` is not. |
| Catalogue.IconLookup | src/components/ui/icons.tsx:16-25 | The corrected lookup compares lower-cased names: a hit matches the request ignoring case, and a miss means no key matches. |
| Catalogue.IconLookupReachesEveryKey | src/components/ui/icons.tsx:16-25 | The corrected lookup finds every key, the camel-case ones included, under its exported name. |
| TableSchema.ParseLabel | src/core/schemas/table.ts:5-10 | A header or label is accepted exactly when it is a string, or an object whose `i18n` is exactly `true` and whose `key` is a string; otherwise the issue is a union failure at that spot. |
| TableSchema.IconField | src/core/schemas/table.ts:12-17 | An icon is optional. A string outside the icon keys is an enumeration failure and a non-string is a type failure, both at `icon`. |
| TableSchema.ParseCell | src/core/schemas/table.ts:23-35 | A cell is accepted exactly when it is `'Badge'`, `'DropdownMenu'` or a function. |
| TableSchema.ParseMenuItems | src/core/schemas/table.ts:26-28 | A menu item list is accepted exactly when every item is; the issue lies under the index of a failing item. |
| TableSchema.ParseColumns | src/core/schemas/table.ts:31-38 | A column list is accepted exactly when every column is, with one typed column per element. |
| TableSchema.ParsePaginationConfig | src/core/schemas/table.ts:53-56 | Pagination needs a boolean `enabled` and a numeric `pageSize`; the page size's sign is not examined. |
| TableSchema.ValidateTableConfig | src/core/schemas/table.ts:59-73 | A configuration is accepted exactly when it satisfies the whole table grammar, and then it has one typed column per column value. |
| TableSchema.ValidateTableColumn | src/core/schemas/table.ts:76-78 | A column is accepted exactly when it satisfies the column grammar. |
| TableSchema.TableRoundTrip | src/core/schemas/table.ts:59-73 | Every typed configuration, written out as a value, is accepted and read back unchanged. |
| TableSchema.I18nFalseRejected | src/core/schemas/table.ts:5-10 | An i18n header with `i18n: false` is rejected as a union failure. |
| TableSchema.CapitalisedIconRejected | src/schemas/customers.ts:38 | A menu item with a valid label and icon `'Pencil'` fails with an enumeration failure at its `icon`. |
| TableSchema.FirstBadColumnDecides | src/core/schemas/table.ts:60 | The column list fails with exactly the issue of its first bad column. |
| TableSchema.BadColumnRejectsConfig | src/core/schemas/table.ts:59-73 | One bad column rejects the whole configuration, with that column's issue; nothing is partially accepted. |
| TableSchema.ColumnAloneIsConfigColumn | src/core/schemas/table.ts:60-78 | `validateTableColumn` accepts exactly what a configuration accepts as its only column, and reads the same column. |
| TableSchema.ColumnReadIndependentOfPath | src/core/schemas/table.ts:31-38 | Where a column sits changes only where an issue is reported, never what is read. |
| TableSchema.NoCrossChecks | src/core/schemas/table.ts:59-64 | Duplicate column ids, sorting on a field no column declares, and a negative page size are all accepted. |
| Effects.RunAllSucceeds | src/core/generator.ts:29-34 | A sequence of runs none of which fails performs every effect, in order. |
| Effects.RunAllStopsAtFirstFailure | src/core/page-generator.ts:33-38 | When run `k` is the first to fail, the sequence performs exactly runs 0..k and fails with run `k`'s fault. |
| Generator.Kids | src/core/generator.ts:85-88 | A truthy `properties.children` that is an array gives its elements; any other truthy value gives itself alone; a missing or falsy one, or missing `properties`, gives no children. |
| Generator.WalkNodeVisitsReachable | src/core/generator.ts:78-96 | The traversal stops exactly when a reachable node has a `null` child element; otherwise it visits exactly the types of the reachable nodes. |
| Generator.FlatDepsMembers | src/core/generator.ts:72-82 | A unit is in the flattened dependencies exactly when some visited type declares it. |
| Generator.RequiredComponentsIsUnion | src/core/generator.ts:68-98 | The closure fails exactly when a reachable children array holds `null`. Otherwise a unit is required exactly when some reachable type is registered with it as a dependency, and no unit is listed twice. |
| Generator.NoDeclaredDependenciesNoInstall | src/core/generator.ts:72-76 | When no reachable type declares dependencies, which includes absent lists, the closure is empty. |
| Generator.ImportLineInjective | src/core/generator.ts:125 | Different type names give different import lines. |
| Generator.ImportLinesSucceed | src/core/generator.ts:121-141 | The imports succeed exactly when no reachable children array holds `null` and every reachable type is a string. |
| Generator.ImportLinesOnePerType | src/core/generator.ts:121-143 | The import lines are one line per distinct reachable type, in first-visit order; a type's line is present exactly when that type is reachable. |
| Generator.Spread | src/core/generator.ts:148 | Spreading the properties copies an object's own entries, gives as many entries as a string has characters or an array has elements, and nothing for any other value or for absent properties. |
| Generator.NodeTextFailsOnNull | src/core/generator.ts:147-176 | Serialising a node fails exactly when a reachable children array holds `null`. |
| Generator.ElementTextsFailOnNull | src/core/generator.ts:153-160 | Serialising a children array fails exactly when the array, or a tree below it, holds `null`. |
| Generator.NodeTextShowsEachProperty | src/core/generator.ts:166-175 | A node's text starts with `<` and its type, and contains every property entry: children as `children={[...]}`, anything else as its JSON. |
| Generator.LoneStringChildIsRaw | src/core/generator.ts:161-163 | A lone string child is interpolated raw, without quotes. |
| Generator.StringElementIsQuoted | src/core/generator.ts:153-160 | A string element of a children array is written as JSON, in quotes. |
| Generator.ParagraphExample | src/core/generator.ts:166-175 | A `p` node with the child `Hello` is serialised as the element text with `children={[Hello]}`. |
| Generator.ElementTextsAt | src/core/generator.ts:153-160 | Each element of a children array is serialised as a node if it is one, and as its JSON otherwise, in order. |
| Generator.PageBodyShowsTitleAndComponents | src/core/generator.ts:178-185 | The body shows the title inside the `h1` and every top-level component's text, each one directly before the next. |
| Generator.PageBodyShowsTitleFirst | src/core/generator.ts:180-183 | The title's `h1` is followed directly, after the template's line break, by the first top-level component. |
| Generator.PageContentFailsWithImports | src/core/generator.ts:109-119 | Page content fails exactly when the imports fail, and with their error: a tree the imports accept cannot make the body fail. |
| Generator.ContentTextShows | src/core/generator.ts:110-118 | The page text contains the declaration of the capitalised page function, the import lines and the body. |
| Generator.PageContentShape | src/core/generator.ts:109-119 | Generated content contains the function declaration, the imports and the body. |
| Generator.CommandsAppend | src/core/generator.ts:51-66 | The commands of two effect sequences run one after the other are the two command lists concatenated. |
| Generator.PageRun | src/core/generator.ts:51-66 | The directory is created first. A successful run ends by writing `page.tsx` in it; a failed run writes no file; a failed traversal stops right after the directory. |
| Generator.PageRunInstallsOnce | src/core/generator.ts:100-106 | The install command runs at most once, exactly when the closure is computed and non-empty, and it names every unit. |
| Generator.GeneratePageInstallsOnce | src/core/generator.ts:51-66 | A generated page runs at most one install command, exactly when its closure is non-empty, and names every required unit. |
| Generator.GeneratePagesStopsAtFirstFailure | src/core/generator.ts:29-34 | The first failing page ends the batch after its own effects; later pages are never touched. |
| Generator.SameViewSameNodes | src/core/generator.ts:78-98 | Two pages that agree on title and on the type and properties of each top-level component present the same tree to every traversal. |
| Generator.OnlyTypeAndPropertiesMatter | src/core/types.ts:57-63 | A page's generation depends only on its title and its components' types and properties, never on their ids, regions or `children` fields. |
| PageGenerator.Content | src/core/page-generator.ts:68-73 | Content generation succeeds exactly for the type `DataTable`, compared case-sensitively; any other type fails with `Unsupported component type: <type>`. |
| PageGenerator.DataTablePageShowsData | src/core/page-generator.ts:90-101 | The page embeds the table configuration and the query as JSON, and the data source in single quotes. |
| PageGenerator.DataTablePageShowsNames | src/core/page-generator.ts:83-120 | The page names the row type as an interface, shows the title in the `h1`, and declares the page function under its derived name. |
| PageGenerator.CustomersFunctionName | src/core/page-generator.ts:92 | `/customers` gives the page function `CustomersPage`. |
| PageGenerator.PageRun | src/core/page-generator.ts:56-66 | The directory is created before the content is generated; `page.tsx` is written in it exactly when generation succeeded; otherwise the run fails with the content's error. |
| PageGenerator.GeneratePageUnsupported | src/core/page-generator.ts:56-73 | An unsupported type leaves the page directory behind, writes no page and fails with the type's message. |
| PageGenerator.GeneratePageDataTable | src/core/page-generator.ts:56-66 | A data-table configuration creates `<pages>/<path minus its first character>` and writes the generated page to `page.tsx` inside it. |
| PageGenerator.GeneratePagesStopsAtFirstUnsupported | src/core/page-generator.ts:33-38 | The first unsupported configuration ends the batch with its error, after its directory was created; later configurations are never touched. |
| PageGenerator.GeneratePagesAllDataTables | src/core/page-generator.ts:33-38 | When every configuration is a data table, every page is generated, in order. |
| CustomersPage.ColumnPlan | src/app/customers/page.tsx:40-90 | The columns are name, email, status and actions, in that order. Only name sets `enableSorting`. The actions column has an empty header and no accessor; the others read the field named by their id. |
| CustomersPage.StatusBadge | src/app/customers/page.tsx:56-62 | The badge is `default` exactly when the status is the string `active`. Every other value is `secondary`, including a missing or `null` status. The badge holds the status as given. |
| CustomersPage.DefaultVariantIsExactMatch | src/app/customers/page.tsx:59 | Only the exact string `active` earns the default variant. `Active`, a missing status and `null` are secondary. |
| CustomersPage.ActionsMenu | src/app/customers/page.tsx:68-88 | The actions menu opens from the up-down chevrons and lists Edit (pencil), then Delete (trash), whatever the row. |
| CustomersPage.Activate | src/app/customers/page.tsx:77-81 | Activating an entry logs its label together with the row object unchanged. |
| CustomersPage.ActivationsTellEntriesApart | src/app/customers/page.tsx:77-81 | The two entries log `Edit` and `Delete` respectively, so a log line tells them apart, and both pass the row on unchanged. |
| CustomersPage.CellOf | src/app/customers/page.tsx:52-89 | Exactly the status and actions columns render through a cell function of their own. The status cell is the row's badge; the actions cell is the chevron trigger with the Edit and Delete entries. |
| CustomersPage.CellFunctionsMatchPlan | src/app/customers/page.tsx:40-90 | A column of the plan has a cell function exactly when it declares one. |
| CustomersPage.MenuIconsAreIconKeys | src/app/customers/page.tsx:73-82 | The icons the page draws are keys of the icon table under their exact names. |
| CustomersPage.ColumnPlanValidates | src/app/customers/page.tsx:40-90 | Every column of the plan is accepted by the table-column validator and read back unchanged. |

## Left out

- File-system and process effects are not performed. `readdir`, `mkdir`, `writeFile` and `execSync` become recorded effects. The only part of the install command's outcome that is modelled is whether it exited successfully, given as the parameter `installOk`.
- The schema loaders (`loadSchemas` in both generators) read a directory and `require` modules, so they are left out; the loaded schemas are parameters. As written, the page generator's loader picks up only an export named `customersPageConfig`, which the repository's `customers.ts` does not define.
- The singleton `getInstance` plumbing is left out; the registry is passed explicitly.
- `JSON.stringify` is simplified:
  - no string escaping;
  - no indentation, including for `JSON.stringify(config, null, 2)`;
  - integers only;
  - object keys in property order, without JavaScript's reordering of integer-like keys. The same holds for `Object.entries(props)` in the schema generator's element text (`Generator.EntryTexts`, `Generator.NodeText`), whose entries follow property order.
- Floating-point numbers are not modelled; numbers are integers.
- Case mapping (`toLowerCase`, `toUpperCase`) is ASCII-only.
- Generator.Spread: spreading a string gives one index key per Dafny `char`, a Unicode scalar value, where JavaScript gives one per UTF-16 code unit; the two differ for characters outside the Basic Multilingual Plane.
- Objects are property lists searched for the first match. The schemas in the repository have distinct keys. Inherited `Object.prototype` properties are not seen by `Json.Get`; only the icon component's lookup models them (`Catalogue.InheritedNames`), since there a user-supplied name picks the property. React's error for a non-component element type becomes the single outcome `RenderFault`.
- `path.join` normalisation, for example of an empty segment or a `..`, is not modelled; a path is the list of its segments.
- TableSchema.ValidateTableConfig: reports the first issue in declaration order, where zod collects every issue; only acceptance and the first issue are modelled.
- Zod's stripping of unknown keys is not modelled. The typed result has no place for unknown keys, so they are dropped.
- The data-table React component, the data service, the layout, the theme, the command-line entry point and `DataSchema.transform` are not part of this model.
- JSX rendering of the customers page is left out beyond the column decisions: the page header, the add button and the table's filtering, sorting and pagination props.
- Generator.PageRun: states the order of the directory, install and write steps on the abstract run, with the closure and the content as parameters. Generator.GeneratePage applies it to the computed closure and content.
- The `id`, `region` and `children` fields of a top-level component instance are never read by either traversal. The model drops them when it converts an instance to a tree node.

## Findings

| source | as written | input that shows it | evidently intended | confidence | as-written member | corrected member |
|---|---|---|---|---|---|---|
| src/core/components.ts:139-142 | The icon component lower-cases the requested name, then looks it up case-sensitively among the icon keys (src/components/ui/icons.tsx:16-25). | The name `chevronDown`, which the component's own prop type admits, is looked up as `chevrondown` and renders nothing. | Every icon key, the camel-case ones included, can be reached by its exported name. | not executed | Catalogue.CamelCaseIconsUnreachable | Catalogue.IconLookupReachesEveryKey |
