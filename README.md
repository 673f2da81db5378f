# Home reducer and server HTML template

This project is a Dafny model of two pure pieces of a server-rendered
React/Redux application, with proofs about them.

- **The `home` feature reducer** (module `HomeReducer`, `home_reducer.dfy`).
  - It is a total transition function over the feature state
    `{ list, blankVisible }`.
  - An update-list action replaces `list` with its payload.
  - A visibility toggle replaces `blankVisible` with its payload.
  - Any other action returns the state as it is.
  - When no state is given, the reducer starts from the initial state
    (`list` empty, `blankVisible` true).
  - `Run` folds the reducer over a sequence of actions, the way a store
    dispatches them one after another. The run-level lemmas are stated
    over `Run`.
- **The server template renderer `tmpl`** (module `Template`,
  `template.dfy`, built on the string facts in module `Fragments`,
  `fragments.dfy`).
  - The document is one template literal: fixed text interleaved with seven
    values. The values are the title, the styles, the serialised initial
    store, the pre-rendered content, a framework script pair that depends on
    the mode, the scripts and the CSS hash.
  - `Page` states that layout over any fixed text (`Markup`), and the layout
    lemmas are proved at that level.
  - `Tmpl` is `Page` over `SourceMarkup()`, the template's own text
    character for character.
  - `Tmpl` has no precondition and no error result, so it is defined for
    every input.
  - Values go in verbatim. Nothing is escaped, so a `</script>` inside the
    serialised store ends the bootstrap script early. The model states this
    behaviour and does not correct it.
  - The serialiser (`JSON.stringify` in the server) is a function parameter
    `serialize: T -> string`, so no property of it is assumed.
  - The development flag, which the server reads once from its environment
    module, is a `bool` parameter `isDev`.

## Model

| member | source | states |
|---|---|---|
| HomeReducer.Initial | src/client/container/home/reduer.js:2-5 | the initial state has an empty `list` and `blankVisible` true |
| HomeReducer.Reduce | src/client/container/home/reduer.js:8-21 | an update-list action sets `list` to exactly its payload and keeps `blankVisible`; a toggle sets `blankVisible` to its payload and keeps `list`; any other tag returns the state unchanged |
| HomeReducer.ReduceDefault | src/client/container/home/reduer.js:7 | a given state is reduced as is; a missing state is replaced by the initial state, and an unknown action then yields the initial state |
| HomeReducer.Run | src/client/container/home/reduer.js:7-21 | no contract of its own: successive dispatch by the store, which is outside the source, folding the reducer over a sequence of actions; its properties are the run lemmas below |
| HomeReducer.Known | src/client/container/home/reduer.js:19-20 | the recognised actions of a sequence: an action is in it exactly when it is in the sequence and its tag is known; it is no longer than the sequence |
| HomeReducer.KnownAppend | src/client/container/home/reduer.js:19-20 | filtering keeps order: the recognised actions of `a + b` are those of `a` followed by those of `b` |
| HomeReducer.UpdateIdempotent | src/client/container/home/reduer.js:9-13 | dispatching the same list update twice gives the same state as dispatching it once |
| HomeReducer.ToggleIdempotent | src/client/container/home/reduer.js:14-18 | dispatching the same toggle twice gives the same state as dispatching it once |
| HomeReducer.UpdateToggleCommute | src/client/container/home/reduer.js:9-18 | a list update and a toggle commute, and together they yield exactly `State(users, visible)` |
| HomeReducer.RunSnoc | src/client/container/home/reduer.js:7-21 | dispatching one more action after a run is one more reducer step |
| HomeReducer.LastUpdateWins | src/client/container/home/reduer.js:9-13 | after any run, `list` is the payload of the last list update, or the starting list when there is none |
| HomeReducer.LastToggleWins | src/client/container/home/reduer.js:14-18 | after any run, `blankVisible` is the payload of the last toggle, or the starting flag when there is none |
| HomeReducer.OtherActionsIgnored | src/client/container/home/reduer.js:19-20 | removing every unknown-tag action from a run does not change the state it reaches |
| Fragments.Render | src/server/utils/tmpl.ts:23-45 | no contract of its own: how a template literal evaluates, each literal followed by the next inserted value verbatim; stated by the `Fragments` lemmas below |
| Fragments.RenderLength | src/server/utils/tmpl.ts:23-45 | a template literal's length is the total length of its literals plus that of its inserted values |
| Fragments.RenderSplit | src/server/utils/tmpl.ts:23-45 | a rendered template is the part before value `k`, value `k` verbatim, and the part after it |
| Fragments.HoleAt | src/server/utils/tmpl.ts:23-45 | value `k` appears verbatim at its offset, directly between literal `k` and literal `k + 1` |
| Fragments.FramedHole | src/server/utils/tmpl.ts:23-45 | when literal `k` ends with an opening marker and literal `k + 1` starts with a closing one, value `k` appears verbatim between the two markers |
| Fragments.HoleOffsetNext | src/server/utils/tmpl.ts:23-45 | consecutive values are separated by exactly the literal between them |
| Fragments.HoleGap | src/server/utils/tmpl.ts:23-45 | value `k`, literal `k + 1` and value `k + 1` occur contiguously, so consecutive values have exactly that literal between them |
| Fragments.RenderSeven | src/server/utils/tmpl.ts:23-45 | eight literals with seven values render to their plain left-to-right concatenation |
| Template.SourceMarkup | src/server/utils/tmpl.ts:23-45 | the template's fixed text, in which the development and production script pairs differ |
| Template.Literals | src/server/utils/tmpl.ts:23-45 | the eight fixed literals of a page, in order |
| Template.ModeScripts | src/server/utils/tmpl.ts:38-41 | it is the development pair exactly when in development mode, and the production pair exactly when not |
| Template.Holes | src/server/utils/tmpl.ts:29-43 | a page inserts exactly seven values |
| Template.Page | src/server/utils/tmpl.ts:23-45 | no contract of its own: the template literal over any fixed text; its layout is stated by `Template.PageLayout` and the lemmas after it |
| Template.Tmpl | src/server/utils/tmpl.ts:21-46 | no contract and no precondition: the model of `tmpl`, defined for every input, as `Page` over the template's own text; its properties are the `Tmpl` lemmas below |
| Template.PageLayout | src/server/utils/tmpl.ts:23-45 | a page is its eight fixed literals with the values inserted in the order title, styles, serialised store, content, mode scripts, scripts, CSS hash |
| Template.PageLength | src/server/utils/tmpl.ts:22-45 | a page's length is the fixed literal length plus the lengths of the seven inserted values |
| Template.PageOrder | src/server/utils/tmpl.ts:29-43 | every value appears verbatim at its offset; each offset advances by the value's length plus the next literal's length; value `k`, literal `k + 1` and value `k + 1` occur contiguously there |
| Template.PageDoctype | src/server/utils/tmpl.ts:23 | a page starts with its doctype |
| Template.PageTitle | src/server/utils/tmpl.ts:29 | a page holds the title opening tag, the title and the closing tag, contiguously |
| Template.PageStore | src/server/utils/tmpl.ts:32-34 | a page holds the store assignment, the serialised store and the `;` contiguously |
| Template.PageApp | src/server/utils/tmpl.ts:37 | a page holds the mount element's opening tag, the content and `</div>` contiguously |
| Template.LiteralsLength | src/server/utils/tmpl.ts:23-45 | the fixed literal length is the sum of the fixed text's pieces, with the indentation counted four times |
| Template.SourceLength | src/server/utils/tmpl.ts:23-45 | the template's fixed text is 531 characters long |
| Template.TmplLength | src/server/utils/tmpl.ts:22-45 | the document's length is 531 plus the lengths of title, styles, serialised store, content, chosen script pair, scripts and CSS hash, so nothing is escaped |
| Template.TmplOrder | src/server/utils/tmpl.ts:29-43 | the document is the template's literals with the values in the fixed order, each verbatim at its offset, with value `k`, literal `k + 1` and value `k + 1` contiguous |
| Template.TmplDoctype | src/server/utils/tmpl.ts:23 | the document starts with `<!DOCTYPE html>` |
| Template.TmplTitle | src/server/utils/tmpl.ts:29 | the document contains `<title>` + title + `</title>` |
| Template.TmplStore | src/server/utils/tmpl.ts:32-34 | the document contains `window.initialState = ` + serialised store + `;` |
| Template.TmplApp | src/server/utils/tmpl.ts:37 | the document contains `<div id="app">` + content + `</div>` |
| Template.TmplFramework | src/server/utils/tmpl.ts:38-41 | the two script pairs differ; the framework slot holds the development pair exactly in development mode, and the production pair exactly otherwise |
| Template.TmplBothPairs | src/server/utils/tmpl.ts:29-41 | because values are not escaped, a development document whose title is the production pair contains both pairs |

## Left out

- Object identity:
  - The reducer's default branch returns the very same object.
  - The known branches return fresh spreads.
  - Values have no identity in the model, so only equality of contents is stated.
- Action tags: the tag constants are imported from a module that is not part of this model.
  - They are modelled as two distinct constructors and an `Other(tag)` case.
  - If the two constants were equal, the first `case` would win. The model does not cover that case.
- Action shape: each action's payload is typed by its constructor. The model does not cover the source accepting any `action.payload` value.
- Serialiser: `JSON.stringify` is left abstract as a parameter. Its output format and its failure on cyclic values are not modelled.
- Environment: the module that supplies `isDev` is not part of this model. The flag is a parameter.
- Template.TmplFramework: states which pair fills the framework slot, not that the other pair appears nowhere in the document.
  - Values are inserted unescaped, so that stronger claim does not hold.
  - `Template.TmplBothPairs` exhibits a document that contains both pairs.
- Template.TmplTitle, Template.TmplStore and Template.TmplApp: each states that the framed value occurs somewhere, which is what containment promises. The exact offsets are stated by the `Page` lemmas of the same name.
- The bundler configuration files: these are declarative objects consumed by third-party tools. They carry no logic of their own apart from a `NODE_ENV` switch that adds a source-rewriting loader to production builds (webpack/webpack.common.js:8-14).
- The statistics plugin of the build:
  - It writes a file and exits the process on error, which is I/O.
  - Its path choice is dead code, because the `path` option is always overwritten with an empty string before the choice is made.
- The `home` container component and the client router: these are UI and foreign-library composition.
- The `mapState2Props` spread: too trivial to model.
