# Compkit component pipeline, modelled in Dafny

Compkit turns a language-model reply into UI components and shows them in a sandboxed live preview. This project models the logic along that path. Each part is stated as Dafny definitions with proved contracts:

- **Extractor** (`extractor.dfy`): the backend's component extractor.
  - `parseComponents` is a brace-counting line scanner that cuts a reply into `{name, code}` records.
  - `detectComponentType` is the first-match-wins role classifier that names each record.
  - The scanner is an imperative method. It is proved equal to a step-function specification (`Parse`), and the record-by-record properties are proved about that specification.
- **Js** (`js.dfy`): a small model of the JavaScript values the preview script handles.
  - Objects are ordered entry lists whose last definition wins.
  - It covers functions, forwardRef components and React elements.
  - Also modelled: truthiness, `||`, `??`, strict equality, object spread and `React.createElement`.
- **ClassNames** (`classnames.dfy`): the preview script's class helpers. These are the fallback `cn`, `normalizeClasses` and the `cva` variant builder. Its `classes.push` loops are methods proved against a specification function.
- **ExportNames** (`exportnames.dfy`): the two name pipelines the preview reads from the component source. One collects the icon names imported from `lucide-react`; the other collects the de-duplicated exported names.
- **Preview** (`preview.dfy`): the rest of the preview script.
  - `Slot`, the stand-in icons and the dialog primitives.
  - The sandbox's `window` registry, a class whose methods perform the script's registration loops.
  - Primary-export resolution and the "not exported" placeholder.
  - The five role examples (Button, Card, Input, Modal and Table, with its sub-part fallbacks).
  - `renderPreview`, and a method running the whole script.
- **Library** (`library.dfy`): the library service's pure rules.
  - Library naming from the prompt.
  - The component rows and their categories.
  - Export selection, the archive's file names and its README.
  - The archive-building loop as a method.
- **GeneratorPage** (`generator.dfy`): the generator page's state. It is a class whose two handlers, generate and follow-up, are single transitions. The API reply is a parameter.
- **Users** (`users.dfy`): the user service's profile defaults and credit arithmetic. The auth provider's user store is a map field.
- **Text** (`text.dfy`) and **Wrappers** (`wrappers.dfy`) are supporting modules:
  - the JavaScript string operations used throughout (ECMAScript whitespace, `trim`, `toLowerCase`, `includes`, `split`, `join`, number formatting);
  - `Option`/`Result`.

## Model

| member | source | states |
|---|---|---|
| Extractor.ParseComponents | apps/backend/src/services/ai.service.ts:219-283 | The line scanner's loop, with its running text, brace count and open flag, returns exactly `Parse(code)` and at least one record |
| Extractor.ScanLine | apps/backend/src/services/ai.service.ts:229-264 | One pass of the loop body takes the loop's variables from the scan state before a line to the state one iteration later: a start line flushes a non-blank open record and opens its own, another line joins the open record, and a balanced count on a `}` emits it |
| Extractor.CountBraces | apps/backend/src/services/ai.service.ts:249-252 | The inner loop over a line's characters moves the count by the line's `{` minus its `}` |
| Extractor.StepPreserves | apps/backend/src/services/ai.service.ts:228-264 | Every iteration keeps the scan invariant: the records emitted so far are the first records of the lines read, each with its line range and closing reason, and an open record holds the lines since its start line with the brace count of that text |
| Extractor.RunInv | apps/backend/src/services/ai.service.ts:228-264 | After any number of lines the scan state satisfies that invariant |
| Extractor.FinishScanned | apps/backend/src/services/ai.service.ts:267-273 | Flushing the record still open at the end of the text leaves exactly one record per start line, the last one closed at the end of the text |
| Extractor.TraceShape | apps/backend/src/services/ai.service.ts:228-280 | With no start line the result is one whole-text record. Otherwise there is one record per `() =>` start line, in order; each holds the lines from its start to the first line that brings the brace count back to zero with a `}`, else to the next start line, else to the end of the text |
| Extractor.ParseCount | apps/backend/src/services/ai.service.ts:228-282 | The number of records is the number of start lines, or 1 when there are none, so it is never zero, even for empty input |
| Extractor.BalancedRecordsAreBalanced | apps/backend/src/services/ai.service.ts:240-263 | A record closed by the balance rule holds as many `{` as `}` |
| Extractor.RecordsTrimmedAndMarked | apps/backend/src/services/ai.service.ts:231-280 | Scanned records are trimmed and begin with `() =>`; the fallback record is the classification and the trimmed form of the whole input |
| Extractor.NamesClassifyCode | apps/backend/src/services/ai.service.ts:233-236 | Every record's name is the classification of its own code |
| Extractor.RecordsInOrder | apps/backend/src/services/ai.service.ts:228-265 | Records follow input order and their line ranges do not overlap |
| Extractor.DetectFollowsRuleTable | apps/backend/src/services/ai.service.ts:285-297 | The classifier equals the rule table (Button, Input, Textarea, Navbar, Modal, Badge, Card) read top to bottom over the lower-cased text |
| Extractor.DetectFirstMatchWins | apps/backend/src/services/ai.service.ts:285-297 | The label is always one of the eight. It is a rule's role iff that rule fires and no earlier one does, and `Component` iff no rule fires |
| Extractor.DetectIgnoresCase | apps/backend/src/services/ai.service.ts:286 | Classifying the lower-cased text gives the same label |
| Extractor.DetectIgnoresTrim | apps/backend/src/services/ai.service.ts:286-294 | Classifying the trimmed text gives the same label, so naming a record by its raw or its trimmed text agrees |
| Extractor.RuleIgnoresTrim | apps/backend/src/services/ai.service.ts:286-294 | Trimming the text does not change whether any rule of the table fires |
| Js.GetSpread | apps/frontend/src/components/generator/preview-card.tsx:173 | In `{...a, ...b}` a key of `b` wins; any other key comes from `a` |
| Js.SpreadDistinct | apps/frontend/src/components/generator/preview-card.tsx:173 | Spreading into an object with distinct keys yields an object with distinct keys |
| Js.PutDistinct | apps/frontend/src/components/generator/preview-card.tsx:173 | A property assignment keeps the keys distinct |
| Js.WithoutDistinct | apps/frontend/src/components/generator/preview-card.tsx:171 | The rest of a destructuring keeps the keys distinct |
| Js.TruthyKeysAreTruthyProperties | apps/frontend/src/components/generator/preview-card.tsx:146-148 | For an object with distinct keys, a key is listed iff it is a property whose value is truthy |
| Js.CreateElementShape | apps/frontend/src/components/generator/preview-card.tsx:334-340 | `createElement` keeps every prop other than `ref`, `key` and `children`, takes the ref from the config, and has exactly the given children |
| ClassNames.CnFlattensArrays | apps/frontend/src/components/generator/preview-card.tsx:141-142 | Nested arrays are flattened in place: `cn(a, [xs], b) == cn(a, ...xs, b)` |
| ClassNames.CnDropsFalsy | apps/frontend/src/components/generator/preview-card.tsx:143 | A falsy input contributes nothing |
| ClassNames.CnOfStrings | apps/frontend/src/components/generator/preview-card.tsx:144-155 | For plain strings, `cn` is their space-joined text with only the ends trimmed |
| ClassNames.CnOfObject | apps/frontend/src/components/generator/preview-card.tsx:146-151 | An object contributes its truthy-valued keys, joined by spaces |
| ClassNames.NormalizeClasses | apps/frontend/src/components/generator/preview-card.tsx:158-167 | The recursion through arrays and object values yields only truthy non-array, non-object leaves |
| ClassNames.Cva | apps/frontend/src/components/generator/preview-card.tsx:169-202 | The component function's result is `cn` of the base classes, then the variant classes in declaration order, then the matching compound classes in list order, then `className` |
| ClassNames.PushVariantClasses | apps/frontend/src/components/generator/preview-card.tsx:176-183 | The variant loop appends exactly `VariantClasses(variants, merged)` |
| ClassNames.PushCompoundClasses | apps/frontend/src/components/generator/preview-card.tsx:185-195 | The compound loop appends exactly `CompoundClasses(compounds, merged)` |
| ClassNames.Every | apps/frontend/src/components/generator/preview-card.tsx:187-190 | `Object.entries(conditions).every(...)` as a loop returns exactly `Matches` |
| ClassNames.ExplicitPropsOverrideDefaults | apps/frontend/src/components/generator/preview-card.tsx:172-173 | A prop passed explicitly overrides its default variant; an omitted one takes the default |
| ClassNames.VariantContributes | apps/frontend/src/components/generator/preview-card.tsx:176-183 | Each variant adds, in its place, nothing when its value is null or undefined or selects no truthy class, and that class otherwise |
| ClassNames.NullVariantContributesNothing | apps/frontend/src/components/generator/preview-card.tsx:177-178 | A variant whose merged value is null or undefined can be removed without changing the classes |
| ClassNames.CompoundContributes | apps/frontend/src/components/generator/preview-card.tsx:185-195 | A compound rule adds its class, in its place, iff all its conditions match and the class is truthy |
| ClassNames.MatchesEvery | apps/frontend/src/components/generator/preview-card.tsx:187-190 | A rule matches iff every one of its conditions holds |
| ClassNames.MatchesByKey | apps/frontend/src/components/generator/preview-card.tsx:187-190 | For a rule object with distinct keys, it matches iff for every property the condition holds for the merged prop of that name |
| ClassNames.ArrayConditionIsMembership | apps/frontend/src/components/generator/preview-card.tsx:189 | An array condition holds iff the current value strictly equals one of its elements |
| ExportNames.IconNames | apps/frontend/src/components/generator/preview-card.tsx:21-29 | Every icon name collected from a `lucide-react` import is non-empty and trimmed |
| ExportNames.IconNamesOfImport | apps/frontend/src/components/generator/preview-card.tsx:21-29 | `import { A, B, ... } from 'lucide-react'` (either quote) yields exactly the listed names, in order, for any non-empty list of trimmed names free of `,` and `}` |
| ExportNames.OtherModuleIconsIgnored | apps/frontend/src/components/generator/preview-card.tsx:22 | An import of the same form from any other module contributes no icon names |
| ExportNames.SpacedListTokens | apps/frontend/src/components/generator/preview-card.tsx:25-28 | Splitting a `, `-separated list at `,`, trimming and dropping empties gives the listed names back |
| ExportNames.ExportedNamesDistinctInOrder | apps/frontend/src/components/generator/preview-card.tsx:31-42 | The exported names are exactly the non-empty cleaned names, each once, in order of first appearance |
| ExportNames.TypePrefixDropped | apps/frontend/src/components/generator/preview-card.tsx:40 | A leading `type ` in any casing is stripped: `type X` exports `X` |
| ExportNames.AliasDropped | apps/frontend/src/components/generator/preview-card.tsx:41 | `X as Y` exports `X` |
| Preview.SlotMergesProps | apps/frontend/src/components/generator/preview-card.tsx:205-215 | The clone keeps the child's type; the child's own props beat the wrapper's, the wrapper supplies the rest, and a defined forwarded ref is set |
| Preview.SlotPassesNonElements | apps/frontend/src/components/generator/preview-card.tsx:214 | A child that is not an element is returned unchanged |
| Preview.IconSize | apps/frontend/src/components/generator/preview-card.tsx:222-244 | A stand-in icon is an `svg` whose width and height are the `size` prop (24 when absent), unless `width`/`height` are passed, which are spread last |
| Preview.IconsRegistered | apps/frontend/src/components/generator/preview-card.tsx:246-250 | Each imported icon name ends up truthy on the window. A truthy entry is kept, a falsy one becomes the stand-in icon, and other keys are untouched |
| Preview.ExportsAttached | apps/frontend/src/components/generator/preview-card.tsx:271-283 | An export other than `""`/`default` that the script defines as non-undefined is put on the window with that value; all other keys are unchanged |
| Preview.FindComponentLikeFirst | apps/frontend/src/components/generator/preview-card.tsx:296 | `find` yields the first name starting with `A`-`Z` and not ending in `Variants`, and nothing iff there is none |
| Preview.PrimaryExportChoice | apps/frontend/src/components/generator/preview-card.tsx:294-296 | The primary export is the component's own name when listed; otherwise the first component-like export; otherwise the component's name |
| Preview.Sandbox.RegisterIcons | apps/frontend/src/components/generator/preview-card.tsx:246-250 | The icon loop leaves the window equal to `WithIcons(old window, iconNames)` |
| Preview.Sandbox.InstallHelpers | apps/frontend/src/components/generator/preview-card.tsx:255-269 | Sets `cn`, `cva` and `Slot`, and `DialogPrimitive` to the window's own one or else the stand-in set |
| Preview.Sandbox.AttachExports | apps/frontend/src/components/generator/preview-card.tsx:271-283 | The export loop leaves the window equal to `AttachAll(old window, scope, exportedNames)` |
| Preview.Sandbox.AttachComponent | apps/frontend/src/components/generator/preview-card.tsx:285-292 | A defined component is put on the window under its name, and the name is pushed onto the exports iff it was missing |
| Preview.RenderMissingShape | apps/frontend/src/components/generator/preview-card.tsx:300-315 | The placeholder is a styled `div` whose only child is `Component "<label>" is not exported in this file.` |
| Preview.ButtonExampleShape | apps/frontend/src/components/generator/preview-card.tsx:331-341 | The placeholder iff neither `window.Button` nor a function primary exists; otherwise three buttons of that component |
| Preview.CardExampleMissing | apps/frontend/src/components/generator/preview-card.tsx:343-344 | The Card example is the placeholder iff there is no card component |
| Preview.CardExampleShape | apps/frontend/src/components/generator/preview-card.tsx:342-429 | Otherwise it is the card component holding exactly the header, content and footer |
| Preview.CardContentShape | apps/frontend/src/components/generator/preview-card.tsx:384-417 | The content holds the three statistic rows |
| Preview.CardFooterShape | apps/frontend/src/components/generator/preview-card.tsx:419-426 | The footer holds the two footer buttons |
| Preview.InputExampleMissing | apps/frontend/src/components/generator/preview-card.tsx:431-432 | The Input example is the placeholder iff there is no input component |
| Preview.InputExampleShape | apps/frontend/src/components/generator/preview-card.tsx:433-442 | Otherwise it holds two children; the second is the input component with `type: "email"` |
| Preview.ModalExampleMissing | apps/frontend/src/components/generator/preview-card.tsx:444-447 | The Modal example is the placeholder iff there is no dialog (`Dialog`, `Modal`, function primary) or no `DialogContent` |
| Preview.ModalExampleShape | apps/frontend/src/components/generator/preview-card.tsx:444-496 | Otherwise it is the dialog, opened, holding exactly the content panel |
| Preview.TableExampleMissing | apps/frontend/src/components/generator/preview-card.tsx:498-499 | The Table example is the placeholder iff there is no table component; otherwise it is that component |
| Preview.BodyRowShape | apps/frontend/src/components/generator/preview-card.tsx:514-523 | Each body row has the row part's kind and four cells of the cell part's kind, `td` when missing |
| Preview.HeaderRowShape | apps/frontend/src/components/generator/preview-card.tsx:552-559 | The header row holds four heads of the head part's kind, `th` when missing |
| Preview.FooterRowShape | apps/frontend/src/components/generator/preview-card.tsx:533-543 | The footer row holds three cells, the first with `colSpan` 2 |
| Preview.CaptionShape | apps/frontend/src/components/generator/preview-card.tsx:525-531 | The caption is always present, of the caption part's kind (`caption` when missing) |
| Preview.TableHeaderShape | apps/frontend/src/components/generator/preview-card.tsx:549-560 | The header section (`thead` when missing) holds the header row |
| Preview.TableBodyShape | apps/frontend/src/components/generator/preview-card.tsx:561 | The body section (`tbody` when missing) holds exactly the three body rows |
| Preview.TableFooterShape | apps/frontend/src/components/generator/preview-card.tsx:533-543 | The footer section (`tfoot` when missing) holds the footer row |
| Preview.RoleExample | apps/frontend/src/components/generator/preview-card.tsx:330-565 | A renderer exists iff the name is Button, Card, Input, Modal or Table, and it always returns an element |
| Preview.RenderPreviewDispatch | apps/frontend/src/components/generator/preview-card.tsx:567-577 | A role renders its example. Any other name renders the primary component with no props when it is a function, else the placeholder naming it |
| Preview.RunSandbox | apps/frontend/src/components/generator/preview-card.tsx:246-298 | Running the script step by step on a fresh sandbox renders exactly `PreviewOf(code, name, window, scope)` |
| Preview.DefinedComponentIsPreviewed | apps/frontend/src/components/generator/preview-card.tsx:573-575 | A function component the code defines, with no role example, is previewed as itself with no props |
| Preview.UndefinedComponentIsMissing | apps/frontend/src/components/generator/preview-card.tsx:576 | A component defined nowhere, with no role example or component-like export, is previewed as the placeholder naming it |
| Library.KeptWordsAlphanumeric | apps/backend/src/services/component-library.service.ts:292-296 | Every kept word is lower-case alphanumeric, longer than 3 and not a stop word |
| Library.MeaningfulsMembers | apps/backend/src/services/component-library.service.ts:296 | A word is kept iff it is a piece of the cleaned prompt, longer than 3 and not `create`/`make`/`with`/`using` |
| Library.NoWordsFallback | apps/backend/src/services/component-library.service.ts:298-300 | With no kept word the name is `Library <date>` |
| Library.LibraryNameWords | apps/backend/src/services/component-library.service.ts:303-306 | Otherwise the name, split on single spaces, is the first (at most three) kept words capitalised, in order |
| Library.CapitalizeShape | apps/backend/src/services/component-library.service.ts:305 | A capitalised word has its first character upper-cased and the rest unchanged |
| Library.RowsFor | apps/backend/src/services/component-library.service.ts:42-47 | One row per parsed component, in order, with its name and code and `category` its lower-cased name |
| Library.CreateLibraryRows | apps/backend/src/services/component-library.service.ts:11-47 | The rows come from `parseComponents` of the generated code (at least one); the library name is the given one if non-empty, else the generated one |
| Library.AddComponentRow | apps/backend/src/services/component-library.service.ts:106-115 | The category is the given one if non-empty, else the lower-cased component name |
| Library.StreamLibraryZip | apps/backend/src/services/component-library.service.ts:315-391 | The handler's steps and archive loop produce exactly `Export(library, id, componentName, sanitize)` |
| Library.SelectedMembers | apps/backend/src/services/component-library.service.ts:341-343 | A component is selected iff no name is given or its name equals the given one case-insensitively |
| Library.SelectedAppend | apps/backend/src/services/component-library.service.ts:341-343 | Selection keeps library order: selecting from two runs of components is selecting from each in turn |
| Library.ExportNotFound | apps/backend/src/services/component-library.service.ts:333-348 | The export is a 404 iff the library is missing or the selection is empty |
| Library.ExportArchive | apps/backend/src/services/component-library.service.ts:371-381 | A README giving the count comes first, then exactly one `components/<name>.tsx` per selected component, in order |
| Library.ZipFileNameSuffix | apps/backend/src/services/component-library.service.ts:352-355 | Every archive name ends in `.zip`; naming a component gives the library's own archive name with `-<sanitized component>` inserted before `.zip` |
| GeneratorPage.BlankPromptChangesNothing | apps/frontend/src/pages/generator.tsx:213 | Generating from a blank or whitespace-only prompt leaves the whole state unchanged |
| GeneratorPage.BlankFollowupChangesNothing | apps/frontend/src/pages/generator.tsx:243 | Sending a blank or whitespace-only follow-up leaves the whole state unchanged |
| GeneratorPage.GenerateSucceeds | apps/frontend/src/pages/generator.tsx:211-226 | The list is replaced wholesale by the response's components (or none) and the code is kept; index 0 is selected, loading ends, and the displayed code follows |
| GeneratorPage.GenerateFails | apps/frontend/src/pages/generator.tsx:227-239 | Conversation mode ends and the error is the message (generic without a status code); loading ends and the list is kept |
| GeneratorPage.FollowupAppendsComponents | apps/frontend/src/pages/generator.tsx:248-252 | Returned components are appended after the unchanged list and the first new one is selected and displayed |
| GeneratorPage.FollowupAppendsCode | apps/frontend/src/pages/generator.tsx:253-255 | Code alone appends one `Component<n+1>` holding it and selects it |
| GeneratorPage.FollowupWithNothing | apps/frontend/src/pages/generator.tsx:248-257 | With neither, the list and the selection are unchanged |
| GeneratorPage.FollowupFails | apps/frontend/src/pages/generator.tsx:260-265 | A failed follow-up keeps conversation mode, the list and the selection, and sets the error |
| GeneratorPage.FollowupKeepsHistory | apps/frontend/src/pages/generator.tsx:248-258 | The old list is always a prefix of the new one |
| GeneratorPage.Generator.OnGenerate | apps/frontend/src/pages/generator.tsx:211-240 | The handler's field updates equal the `Generate` transition |
| GeneratorPage.Generator.HandleSendFollowup | apps/frontend/src/pages/generator.tsx:242-266 | The handler's field updates equal the `Followup` transition |
| Users.ToAppUser | apps/backend/src/services/user.service.ts:19-28 | A profile never reads as 0 credits and always has a tier |
| Users.ProfileDefaults | apps/backend/src/services/user.service.ts:22-27 | Missing or 0 credits read as 5 and a missing or empty tier as `free`; the name is `full_name`, else `name`, else null |
| Users.Decremented | apps/backend/src/services/user.service.ts:72 | The new balance is `max(0, current - amount)` and never negative |
| Users.DecrementBounds | apps/backend/src/services/user.service.ts:68-78 | A decrement of a known user returns `max(0, read - amount)` with amount 1 by default |
| Users.DrainedBalanceReadsAsFive | apps/backend/src/services/user.service.ts:70-72 | A stored 0 reads as 5, so a default decrement stores 4 |
| Users.UserStore.GetUserById | apps/backend/src/services/user.service.ts:8-35 | Returns the mapped profile, or `User not found` for an unknown id |
| Users.UserStore.DecrementCredits | apps/backend/src/services/user.service.ts:68-83 | Returns the decremented balance and stores exactly it; an unknown user changes nothing |
| Users.AddBounds | apps/backend/src/services/user.service.ts:88-98 | Adding to a known user returns the read balance (never 0) plus the amount; a missing or 0 balance gives 5 + amount |
| Users.UserStore.AddCredits | apps/backend/src/services/user.service.ts:88-103 | Returns `read + amount` and stores exactly it; an unknown user changes nothing |
| Users.StoredIsReturned | apps/backend/src/services/user.service.ts:74-78 | After a credit write the stored balance is the returned one, other users are unchanged, and a read gives it back (0 reads as 5) |

## Left out

- The model call in `generateComponent`, `cleanCode` and the prompt texts: network I/O and regex post-processing outside the extractor. A reply is any input string.
- The import/export stripping of the component code, CSS comment stripping, the HTML template, Babel, the CDN scripts, `ReactDOM.createRoot` and the iframe: template text and foreign code.
- The `clsx` branch of `cn`: a foreign library, so only the fallback is modelled.
- `eval` in `attachExport` and the component-name `typeof` test are modelled as a lookup in the script's declarations (`scope`) and then the window. A name that is not a valid identifier, a temporal-dead-zone reference and the `console.warn` path are not captured.
- The `opacity: 0.08` prop of the icon's circle is a float and is omitted from the modelled circle.
- `toLowerCase`/`toUpperCase` are ASCII-only here; non-ASCII case mapping is not modelled.
- Objects keep insertion order; JavaScript's hoisting of integer-like keys in `Object.entries` is not modelled.
- `StrictEq` treats two object, array or function values as distinct. Identity of references is not modelled.
- `cn` gives `''` for functions, forwardRef components and React elements. In JavaScript a forwardRef object or an element is an object with enumerable properties (`$$typeof` and `render`; `$$typeof`, `type`, `props` and more). So the real `cn` emits the names of the truthy ones, e.g. `$$typeof type props`, and the model drops them.
- `normalizeClasses` keeps a plain function as a class of its own, as JavaScript does, and `cn` then turns it into `''`. For forwardRef components and elements the model gives no classes, where JavaScript recurses into their property values.
- Objects are entry lists, and a list may define a key twice although a JavaScript object cannot. `Get` reads the last definition, while `TruthyKeys`, `NormalizeValues`, `VariantClasses` and `Matches` walk every entry. So the walks model `Object.entries`/`Object.values` only for lists with distinct keys (`DistinctKeys`). `Put`, `Spread` and `Without` keep that property, and `TruthyKeysAreTruthyProperties` and `MatchesByKey` are stated for such objects.
- Lookup: `variantValues?.[value]` is modelled only for a plain-object `variantValues` and a string, number or boolean `value`; anything else reads as `undefined`. JavaScript also indexes arrays and strings (`['a','b'][1]`, `'ab'[0]`, `length`), inherited properties, and object or array values through their string form (`String(v)`), and those reads are not modelled.
- React `key` props are dropped by `createElement`; `defaultProps` and the internals of `React.isValidElement` are not modelled.
- The Table sub-part fallbacks `(props) => createElement(tag, props)` are modelled as the plain tag.
- `previewElements[name]` only recognises the five role names; inherited keys such as `toString` are not modelled.
- Supabase queries and inserts, the archive stream, its error handler and the 500 paths: remote stores and foreign libraries.
- `sanitize-filename` and `toLocaleDateString()` are parameters.
- `JSON.stringify` of non-string component code is not modelled: code is a string.
- The other library service operations (update, list, get, delete): plain remote queries with no logic of their own.
- `await`, `setTimeout`, React batching, `sessionStorage` effects and console logging: each handler is one atomic transition.
- The read-modify-write of credits is not atomic in the service; concurrent callers are not modelled.
- Users: credits are whole numbers; fractional credit values are not modelled.
- The UI-only components, routes, middleware, API client and type declarations.
