# simple-ast manifest generator, modelled in Dafny

`lib/generate.js` of OpenFn's simple-ast reads an adaptor module, parses it with
babylon, and writes a JSON manifest of the module's functions. The logic
of the script is one pure transformation of the parsed program's top-level
statement list (`ast.program.body`):

1. keep the statements whose type is `FunctionDeclaration`;
2. drop those named `execute` or `_toConsumableArray`, keeping the source order;
3. describe each remaining declaration by its `name`, its `params` (each
   parameter's `name` and `type`, in order) and its `docs`: the `value`s of its
   leading block comments, in order, or the string `"none."` when the node
   has no `leadingComments` property at all.

The model is four modules:

- `Wrappers` (wrappers.dfy): `Option`, standing for a JavaScript property that is
  present or undefined.
- `Ast` (ast.dfy): the babylon nodes the script looks at. A `Statement` is a
  `FunctionDeclaration(id, params, leadingComments)` or `Other`;
  `leadingComments` is an `Option<seq<Comment>>`, so that an absent list and a
  present but empty list stay distinct, as the truthiness test of the source
  makes them. A `Param` keeps its node type and its name, which only
  `Identifier` parameters have.
- `JsArrays` (js_arrays.dfy): `Array.prototype.filter` and `.map` on sequences,
  for side-effect-free callbacks. It proves what a filter keeps, where each kept
  element lands (its rank among the kept elements), that order is preserved, and
  that two chained filters are one filter on the conjunction.
- `Generate` (generate.dfy): the transformation itself (`ExportedFunctions`,
  `FormatParams`, `BlockValues`, `DocsOf`, `Format`, `Generate`) and the
  properties of the manifest it produces.

The transformation is a function from a statement list to the list of
manifest entries. `Generate(body)` is the value the script hands to
`JSON.stringify`.

The project's description of the tool covers a later, richer pipeline. It adds
public-tag filtering, parameter validation, exclusion of underscore-prefixed
names, variable-bound operations and cross-file resolution. This model
follows the code of `lib/generate.js`, which has none of these:

- Only the two literal names are excluded. `_private` is kept.
- `docs` keeps every block comment's text, not only the first one.
- The sentinel is `"none."`.

## Model

| member | source | states |
|---|---|---|
| JsArrays.Filter | lib/generate.js:19-24 | a filter keeps only input elements that satisfy the callback, and keeps every input element that does; never longer than the input |
| JsArrays.Map | lib/generate.js:26-48 | a map has the input's length and position i holds the callback applied to input element i |
| JsArrays.FilterLength | lib/generate.js:19-24 | a filter's result has as many elements as the input has satisfying elements |
| JsArrays.FilterAt | lib/generate.js:19-24 | a satisfying element is kept, at the position equal to the number of satisfying elements before it |
| JsArrays.FilterFrom | lib/generate.js:19-24 | the k-th kept element is a satisfying input element with exactly k satisfying elements before it |
| JsArrays.FilterOrder | lib/generate.js:19-24 | of two satisfying elements the earlier lands at the smaller position (order preserved) |
| JsArrays.FilterEmpty | lib/generate.js:36-37 | a filter keeps nothing if and only if no element satisfies the callback |
| JsArrays.FilterFilter | lib/generate.js:19-24 | two chained filters equal one filter on the conjunction of their callbacks |
| Generate.ExportedFunctions | lib/generate.js:19-24 | every kept statement is a body function declaration not named execute or _toConsumableArray, and every such declaration is kept |
| Generate.ExportedIsFilterSelected | lib/generate.js:19-24 | the kind filter followed by the name filter equals one filter on "function declaration with a non-reserved name" |
| Generate.FormatParams | lib/generate.js:28-33 | params has the declaration's parameter count and entry i carries parameter i's name and type unchanged |
| Generate.BlockValues | lib/generate.js:36-39 | the docs list has one text per block comment |
| Generate.BlockValuesIsBlockTexts | lib/generate.js:36-39 | the filter-then-map chain equals a one-comment-at-a-time reference where block comments contribute their value and line comments nothing |
| Generate.BlockValuesAt | lib/generate.js:36-39 | every block comment's value is kept, at its rank among the block comments |
| Generate.BlockValuesFrom | lib/generate.js:36-39 | every kept text is the value of a block comment with that rank |
| Generate.DocsEmptyList | lib/generate.js:35-41 | a present comment list gives docs equal to the empty list if and only if all its comments are line comments, and never gives the "none." sentinel |
| Generate.DocsOf | lib/generate.js:35-41 | docs is the "none." sentinel if and only if leadingComments is absent; a present list (empty or line-only included) gives the list of block-comment values |
| Generate.Format | lib/generate.js:26-48 | an entry carries the declaration's id name, its parameters copied in order, and docs as DocsOf states |
| Generate.Generate | lib/generate.js:19-48 | the manifest has one entry per exported function, entry k describes the k-th exported function, and no entry is named execute or _toConsumableArray |
| Generate.GenerateLength | lib/generate.js:19-26 | the manifest length equals the number of body function declarations with a non-reserved name |
| Generate.GenerateKeeps | lib/generate.js:19-26 | every function declaration with another name is described, at the position equal to the number of such declarations before it |
| Generate.GenerateComesFrom | lib/generate.js:19-26 | every entry describes a body function declaration with a non-reserved name, and entry k the k-th of them |
| Generate.GenerateOrder | lib/generate.js:19-26 | entries follow the body order of their declarations |
| Generate.GenerateIgnoresOthers | lib/generate.js:19-20 | inserting a statement that is not a function declaration anywhere in the body leaves the manifest unchanged |

## Left out

- Command-line handling with yargs and the missing-`--adaptor` branch, which prints an error and exits with status 0 (lib/generate.js:4, 8-12): process control, not logic.
- Reading the adaptor file and writing `ast.json` (lib/generate.js:14, 51): file I/O.
- `babylon.parse` (lib/generate.js:15-17): a foreign parser. Its output is the input datatype `Ast.Statement`, and only the node properties the script reads are modelled.
- `JSON.stringify(..., null, "  ")` (lib/generate.js:50): library serialisation. The value handed to it is `Generate.Generate(body)`. A parameter without a name has `name: None`, which `JSON.stringify` omits.
- The progress messages written with `console.log` (lib/generate.js:3, 52): console output.
- A function declaration without an `id`, which babylon never produces as a top-level statement, so the model does not represent it.
- Public-tag filtering, parameter validation, underscore-prefix exclusion, variable-bound operations and cross-file resolution: these belong to later versions of the tool and do not appear in lib/generate.js.
