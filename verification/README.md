# Product catalogue front end: a Dafny model of its logic

This project models the deterministic logic of a Next.js/React front end for registering and
listing products. The front end covers souvenirs, menu items and clothing. The model covers:

- **The two taxonomy tables and their lookups.**
  - The register page uses type → classification → category.
  - The product modal uses product type → category id → classification id, and projects `{id, label}` entries to `{value, label}` options.
- **The modal's three attribute-list editors.**
  - The editors are add-ons (`include`), removed ingredients (`remove`) and the technical datasheet (`datasheet`).
  - Each supports add, remove-by-index and change-one-field.
  - Saving keeps the rows whose required fields are non-blank, writes one fragment per row, joins the fragments with `", "`, and stores `null` for the empty text.
- **The modal's zod schema (`productSchema`).** This covers trimming and bounds, the currency and decimal-comma rewriting, and null handling. The whole parse either yields the parsed product or lists every failing field.
- **The modal's draft transitions.** These are the product-type, category and classification selects, the direct field edits, the menu-only editors, and the parse that comes before the submission.
- **The register page's form hook (`useProductForm`).** This covers the validation, the payload sent to `/products`, with the category and classification ids computed as code-unit sums modulo 1000, and the submit state machine around the optional upload.
- **The register page's cascade.** Changing the type clears the classification and the category, and changing the classification clears the category. The page also derives the option lists and the disabled flags.
- **The image-analysis hook (`useAIProductGeneration`).** This covers the re-entrancy guard, the endpoint and field name chosen by the image count, the error reduction and `clearGeneration`.
- **The generated-product card.** This covers the analysis-method mapping, the banner conditions, the first-underscore replacement and the status text.
- **The product list page.** This covers the search and filter predicate, the labels, loading, and the delete dialog.
- **The type registry hook (`useTypeForm`)**: append on submit, and delete by id.
- **`ProductImage`'s choice of what to render and which URL to load.**

Every React handler is modelled as one pure transition from a state datatype to the next. HTTP
responses, the clock and the environment variable are parameters. `Response<D>` is either the
response body or an error whose server message may be absent.

Modules:
- `Wrappers`: `Option`, `Result`, `Response` and the `||` fallback for error messages.
- `Strings`: JavaScript `trim`, `join`, `replace` with a string pattern, `startsWith`, `includes`, and `toLowerCase` on ASCII and Latin-1.
- `Lists`: `filter`, delete-by-index, index-of, and subsequences.
- `JsNumber`: whether `Number(s)` is NaN, after section 7.1.4.1 of ECMA-262.
- `Encoding`: join-and-null and its decoding.
- `Selects`: `{value, label}` options and label tables.
- `Files`.
- One module per source file of the core.

Three behaviours of the code that shape the model:
- The datasheet rows are records of five optional fields. Setting a field of the other shape adds it to the row.
- The modal's product-type change clears only the selected category. The chosen `idca`/`idcl` stay.
- The datasheet editor is created while the product type is still `""`, so its first row always has the non-menu shape.

## Model

| member | source | states |
|---|---|---|
| Wrappers.ErrorMessage | src/hooks/useProductForm.ts:114-117 | the server's message when it is a non-empty string, else the default text; `""` falls back like a missing message |
| Selects.LabelOr | src/app/page.tsx:106-131 | `map[key] \|\| key`: a listed key with a non-empty label reads that label; an unlisted key is echoed |
| Selects.TypeLabel | src/app/page.tsx:124-131 | `vestuario` reads `Vestuário`; an unknown type is shown as it is |
| Strings.Trim | src/components/modal/hooks/useRemoveList.ts:26-27 | `trim`: no longer than the input, and a non-empty result neither starts nor ends with white space |
| Strings.TrimSpan | src/components/modal/hooks/useRemoveList.ts:26-27 | the trimmed text is a slice of the input, with only white space cut off on either side |
| Strings.TrimEmptyIffBlank | src/components/modal/hooks/useRemoveList.ts:26 | the filter's truthiness test: the trimmed text is empty exactly when the input is blank |
| Strings.TrimIdempotent | src/components/modal/schemas/productSchema.ts:6-16 | trimming twice equals trimming once |
| Strings.Join | src/components/modal/hooks/useRemoveList.ts:28 | `join`: `""` for no parts, the part itself for one |
| Strings.JoinEmptyIff | src/components/modal/hooks/useRemoveList.ts:28-33 | with non-empty parts, the joined text is `""` exactly when there are no parts |
| Strings.SplitJoin | src/components/modal/hooks/useRemoveList.ts:28 | splitting the joined text at the separator gives back parts that do not contain it |
| Strings.Find | src/components/modal/schemas/productSchema.ts:62 | `indexOf`: the first occurrence, absent exactly when the pattern does not occur |
| Strings.ReplaceFirst | src/components/modal/schemas/productSchema.ts:62 | `replace` with a string pattern: unchanged without an occurrence; otherwise the text before the first occurrence, the replacement, and everything after that occurrence |
| Strings.ReplaceBySelf | src/components/modal/schemas/productSchema.ts:62 | replacing a pattern by itself gives back the text |
| Strings.RemoveAll | src/components/modal/schemas/productSchema.ts:62 | `replace(/\./g, "")`: the character is gone and every other character is kept |
| Strings.RemoveAllIsFilter | src/components/modal/schemas/productSchema.ts:62 | the global removal is the order-preserving filter that drops exactly that character |
| Strings.RemoveAllIdempotent | src/components/modal/schemas/productSchema.ts:62 | removing a character twice equals removing it once |
| Strings.LowerChar | src/app/page.tsx:88-90 | ASCII capitals map to their lower case; characters that are neither ASCII nor Latin-1 capitals stay as they are |
| Strings.ToLower | src/app/page.tsx:88-90 | `toLowerCase`: same length, character by character |
| Strings.ToLowerIdempotent | src/app/page.tsx:88-90 | lower-casing twice equals lower-casing once |
| Lists.IndexOf | src/hooks/useProductForm.ts:84-93 | the first position of the value, `\|xs\|` exactly when it is absent |
| Lists.SubsequenceLength | src/app/page.tsx:87-96 | a subsequence is never longer than its list |
| Lists.RemoveAt | src/components/modal/hooks/useRemoveList.ts:11-13 | an in-range index deletes exactly that position; any other index leaves the list unchanged |
| Lists.RemoveAppended | src/components/modal/hooks/useOpcionalList.ts:7-13 | removing the row just appended restores the list |
| Lists.Filter | src/app/page.tsx:87-96 | the result is an order-preserving subsequence holding exactly the elements that satisfy the predicate |
| Lists.FilterMultiplicity | src/app/page.tsx:87-96 | every value that satisfies the predicate occurs in the result as often as in the list, and every other value not at all |
| Lists.FilterIdempotent | src/app/page.tsx:87-96 | filtering twice by the same predicate equals filtering once |
| Lists.FilterAppend | src/hooks/useTypeForm.ts:59-78 | filtering distributes over concatenation |
| Lists.SubsequenceMissingShorter | src/app/page.tsx:69-71 | a subsequence that misses an element of the list is strictly shorter |
| Taxonomy.ClassificationsFor | src/constants/product-options.ts:86-88 | non-empty exactly for the three known types, with three classifications each, all of them keys of the category table |
| Taxonomy.CategoriesFor | src/constants/product-options.ts:90-96 | non-empty exactly for the nine known classifications, with three categories each; `[]` for any other key |
| Taxonomy.ClassificationsOfKnownTypes | src/constants/product-options.ts:9-25 | the listed classification values in table order for `souvenir`, `menu`, `vestuario`; `[]` for `""` |
| Taxonomy.CategoriesOfKnownClassifications | src/constants/product-options.ts:28-83 | the listed category values in table order for each of the nine classifications |
| Taxonomy.TaxonomyClosed | src/constants/product-options.ts:2-83 | every offered type has three classifications, and every classification it offers has three categories |
| Taxonomy.ClassificationsDistinct | src/constants/product-options.ts:9-25 | a classification value occurs at one position of one type only |
| Taxonomy.OfferedValuesListed | src/constants/product-options.ts:9-83 | every offered classification and category value is in the flat lists of all values |
| ModalOptions.FindBy | src/components/modal/types/product-options.ts:65-67 | `find`: `None` exactly when no entry matches, else the first matching entry |
| ModalOptions.CategoriesByProductTypeResolved | src/components/modal/types/product-options.ts:61-68 | the `find(...)!` lookups resolve to categories 3, 1 and 2 for `souvenir`, `menu` and `clothing` |
| ModalOptions.Project | src/components/modal/types/product-options.ts:75 | one option per entry, in order, with the entry's id as value and its label |
| ModalOptions.CategoryOptionsFor | src/components/modal/types/product-options.ts:73-76 | one option for each of the three known product types, `[]` for any other |
| ModalOptions.ClassificationOptionsFor | src/components/modal/types/product-options.ts:81-84 | `[]` for `""` and unknown categories; one option per table entry for a known category |
| ModalOptions.CategoryOptionsOfKnownTypes | src/components/modal/types/product-options.ts:61-76 | `menu` → `{1, Gastronomia}`, `clothing` → `{2, Vestuário}`, `souvenir` → `{3, Souvenir}`, `""` → `[]` |
| ModalOptions.ClassificationIdsOfKnownCategories | src/components/modal/types/product-options.ts:15-36 | the ids 1–3, 4–6 and 7–11 in table order; `[]` for `""` |
| ModalOptions.ProductTypesCovered | src/components/modal/types/product-options.ts:1-68 | every product type of the first select is a key of the category table and has options |
| ModalOptions.ClassificationIdsUnique | src/components/modal/types/product-options.ts:15-36 | two table entries with the same id are the same entry of the same category |
| Encoding.Encode | src/components/modal/hooks/useRemoveList.ts:26-34 | a present encoding is never `""`, and no fragments give `null` |
| Encoding.EncodeNullIff | src/components/modal/hooks/useRemoveList.ts:29-33 | with non-empty fragments, `null` exactly when there are none |
| Encoding.DecodeEncode | src/components/modal/hooks/useRemoveList.ts:26-34 | splitting the stored text at `", "` gives back the fragments when none is empty or holds `", "` |
| Encoding.SplitPairOfPair | src/components/modal/hooks/useOpcionalList.ts:28 | a `"<name> = <value>"` fragment splits back into name and value when the name holds no `" = "` |
| RemovalList.Add | src/components/modal/hooks/useRemoveList.ts:7-9 | one empty row appended, earlier rows untouched |
| RemovalList.Remove | src/components/modal/hooks/useRemoveList.ts:11-13 | an in-range index deletes exactly that row and shifts the later ones down; any other index is a no-op |
| RemovalList.Change | src/components/modal/hooks/useRemoveList.ts:15-23 | needs an existing row; only that row's name changes |
| RemovalList.Fragments | src/components/modal/hooks/useRemoveList.ts:26-29 | one non-empty, already-trimmed fragment per kept row |
| RemovalList.Encode | src/components/modal/hooks/useRemoveList.ts:25-34 | `null` exactly when every row is blank |
| RemovalList.Save | src/components/modal/hooks/useRemoveList.ts:31-34 | only `remove` changes; `null` exactly when every row is blank, never `""` |
| RemovalList.DecodeSaved | src/components/modal/hooks/useRemoveList.ts:26-34 | the saved text decodes into the trimmed names of the kept rows, in order |
| RemovalList.SaveExample | src/components/modal/hooks/useRemoveList.ts:26-29 | `[onion, pickles]` saves as `"onion, pickles"` |
| OptionalList.Add | src/components/modal/hooks/useOpcionalList.ts:7-9 | one empty `{ingrediente, valor}` row appended, earlier rows untouched |
| OptionalList.Remove | src/components/modal/hooks/useOpcionalList.ts:11-13 | an in-range index deletes exactly that row; any other index is a no-op |
| OptionalList.Change | src/components/modal/hooks/useOpcionalList.ts:15-23 | needs an existing row; only the chosen field of that row changes |
| OptionalList.Fragments | src/components/modal/hooks/useOpcionalList.ts:26-29 | one non-empty fragment per kept row |
| OptionalList.Encode | src/components/modal/hooks/useOpcionalList.ts:25-34 | `null` exactly when no row has both fields non-blank |
| OptionalList.Save | src/components/modal/hooks/useOpcionalList.ts:31-34 | only `include` changes; `null` exactly when no row is kept, never `""` |
| OptionalList.DecodeSaved | src/components/modal/hooks/useOpcionalList.ts:26-34 | the saved text decodes into the kept rows' untrimmed ingredient and value, in order |
| OptionalList.SaveExample | src/components/modal/hooks/useOpcionalList.ts:26-29 | `[{cheese, 2.50}, {"", 1.00}]` saves as `"cheese = 2.50"` |
| OptionalList.InitialSavesNull | src/components/modal/hooks/useOpcionalList.ts:5-34 | saving the initial editor stores `null` |
| DatasheetList.NewRow | src/components/modal/hooks/useDataSheetList.ts:19-21 | menu-shaped exactly when the product type is `menu`, otherwise variant-shaped |
| DatasheetList.Initial | src/components/modal/hooks/useDataSheetList.ts:18-22 | one row, shaped by the product type at creation |
| DatasheetList.Add | src/components/modal/hooks/useDataSheetList.ts:24-31 | appends one empty row shaped by the product type of the call |
| DatasheetList.Remove | src/components/modal/hooks/useDataSheetList.ts:33-35 | an in-range index deletes exactly that row; any other index is a no-op |
| DatasheetList.Change | src/components/modal/hooks/useDataSheetList.ts:37-45 | needs an existing row; sets one field, which may add a field of the other shape, and leaves every other field and row alone |
| DatasheetList.Fragments | src/components/modal/hooks/useDataSheetList.ts:50-63 | one non-empty fragment per row kept in the save-time mode |
| DatasheetList.Encode | src/components/modal/hooks/useDataSheetList.ts:47-68 | `null` exactly when no row is kept in the save-time mode |
| DatasheetList.Save | src/components/modal/hooks/useDataSheetList.ts:65-68 | only `datasheet` changes; `null` exactly when no row is kept |
| DatasheetList.OtherShapeDropped | src/components/modal/hooks/useDataSheetList.ts:50-63 | a row created in the other mode, never given the missing fields, is dropped at save |
| DatasheetList.DecodeSaved | src/components/modal/hooks/useDataSheetList.ts:47-68 | the saved text decodes into `(tipo, "quantidade unidade")` or `(variacao, estoque)` of the kept rows, in order |
| DatasheetList.SaveExample | src/components/modal/hooks/useDataSheetList.ts:50-57 | `{flour, 500, g}` saves as `"flour = 500 g"` in menu mode |
| JsNumber.NumericHasNoCommaOrDollar | src/components/modal/schemas/productSchema.ts:67 | `Number` of a string holding `,` or `$` is NaN |
| JsNumber.IsNumeric | src/components/modal/schemas/productSchema.ts:67 | `!isNaN(Number(s))`: the trimmed text is empty, a `0x`/`0o`/`0b` integer, `Infinity` or a decimal literal with optional sign and exponent |
| JsNumber.NumericExamples | src/components/modal/schemas/productSchema.ts:67 | `""` and `" "` are numbers (they convert to 0), `"12"` is one, `"12,5"` and `"R$12"` are not |
| ProductSchema.StatusField | src/components/modal/schemas/productSchema.ts:4 | absent becomes `"pending"`, a string is kept, `null` is rejected |
| ProductSchema.Bounded | src/components/modal/schemas/productSchema.ts:6-16 | accepted exactly when the trimmed length is within the bounds; the value is the trimmed text |
| ProductSchema.BoundedIdempotent | src/components/modal/schemas/productSchema.ts:6-16 | a trimmed, bounded value parses to itself |
| ProductSchema.IdField | src/components/modal/schemas/productSchema.ts:18-28 | accepted exactly when non-empty and `Number` of it is not NaN |
| ProductSchema.PartnerField | src/components/modal/schemas/productSchema.ts:30-33 | accepted exactly when `Number` of it is not NaN (so `""` passes) |
| ProductSchema.PrinterField | src/components/modal/schemas/productSchema.ts:36-43 | `null` and `""` become `null`, `undefined` is rejected, a string is accepted exactly when numeric and kept |
| ProductSchema.PrinterNullIff | src/components/modal/schemas/productSchema.ts:40-43 | an accepted printer is `null` exactly when the input is `null` or `""` |
| ProductSchema.QuantityField | src/components/modal/schemas/productSchema.ts:53-63 | `null`, `undefined` and `""` become `null`; otherwise accepted exactly when the raw text is numeric, and the kept text has no `.` or `,` |
| ProductSchema.QuantityNullIff | src/components/modal/schemas/productSchema.ts:57-63 | an accepted quantity is `null` exactly when the input is `null` or `""` |
| ProductSchema.NormaliseQuantity | src/components/modal/schemas/productSchema.ts:62 | every `.` removed, then the first `,` made a `.`: never longer than the input, and without a comma neither separator is left |
| ProductSchema.NormaliseQuantityWithoutComma | src/components/modal/schemas/productSchema.ts:62 | without a comma, normalising only deletes the dots |
| ProductSchema.QuantityDropsDots | src/components/modal/schemas/productSchema.ts:60-63 | `"10.5"` is accepted and normalised to `"105"` |
| ProductSchema.MoneyFieldAsWritten | src/components/modal/schemas/productSchema.ts:65-73 | as written: accepted exactly when the raw text is numeric |
| ProductSchema.NormaliseMoney | src/components/modal/schemas/productSchema.ts:68-73 | the first `R$` removed, then the first `,` made a `.`: never longer than the input, and text with neither `$` nor `,` is left as it is |
| ProductSchema.MoneyRewriteIsDead | src/components/modal/schemas/productSchema.ts:65-73 | as written, every accepted value comes out unchanged: the `R$`/comma rewrite never applies |
| ProductSchema.MoneyField | src/components/modal/schemas/productSchema.ts:65-73 | corrected: accepted exactly when the normalised text is numeric; the value holds no `,` or `$` |
| ProductSchema.MoneyFieldExtendsAsWritten | src/components/modal/schemas/productSchema.ts:65-73 | the corrected field accepts everything the as-written one does, with the same value |
| ProductSchema.PlaceholderNormalises | src/components/modal/schemas/productSchema.ts:68 | the money rewrite turns `"R$99,99"` into `"99.99"` |
| ProductSchema.PlaceholderDropsCurrency | src/components/modal/schemas/productSchema.ts:68 | removing `R$` from `"R$99,99"` gives `"99,99"` |
| ProductSchema.PlaceholderDecimalPoint | src/components/modal/schemas/productSchema.ts:68 | rewriting the comma of `"99,99"` gives `"99.99"` |
| ProductSchema.PlaceholderPrice | src/components/modal/index.tsx:241 | the placeholder `"R$99,99"` is rejected as written and parsed to `"99.99"` by the corrected field |
| ProductSchema.Fails | src/components/modal/schemas/productSchema.ts:3-79 | whether one field's check fails on the raw draft, with price and offer checked as written |
| ProductSchema.Valid | src/components/modal/schemas/productSchema.ts:3-79 | every field's check passes |
| ProductSchema.Issues | src/components/modal/schemas/productSchema.ts:3-79 | a field is listed exactly when it fails its check |
| ProductSchema.IssuesExplained | src/components/modal/schemas/productSchema.ts:3-79 | each field's issue in terms of the raw draft: the trim bounds, numeric ids, null-tolerant printer and quantity, price and offer exactly when the raw text is not numeric, description ≤ 255 |
| ProductSchema.NoIssueValid | src/components/modal/schemas/productSchema.ts:3-79 | no listed issue implies every field passes |
| ProductSchema.ValidNoIssue | src/components/modal/schemas/productSchema.ts:3-79 | every field passing implies no listed issue |
| ProductSchema.Parsed | src/components/modal/schemas/productSchema.ts:3-79 | the parsed product: trimmed and bounded texts, ids kept, `""`/`null` to `null`, normalised quantity, price and offer exactly as typed, pass-through fields |
| ProductSchema.Parse | src/components/modal/schemas/productSchema.ts:3-79 | success exactly when valid, yielding the parsed product; otherwise the non-empty list of failing fields |
| ProductSchema.ParseCorrected | src/components/modal/schemas/productSchema.ts:65-73 | corrected: money is normalised before the number check; whatever the as-written parse accepts comes out the same, and accepted price and offer are the corrected money values |
| ProductModal.CategoryOptions | src/components/modal/index.tsx:173-177 | no options while the product type is empty |
| ProductModal.CategoryOptionsAreLookup | src/components/modal/index.tsx:173-177 | the empty-type guard gives what the lookup gives anyway |
| ProductModal.ClassificationOptions | src/components/modal/index.tsx:71-72 | no options while no category is selected |
| ProductModal.SelectProductType | src/components/modal/index.tsx:145-151 | sets the type and clears the selected category only; the classification options become empty |
| ProductModal.ProductTypeChangeKeepsIds | src/components/modal/index.tsx:145-151 | a type change keeps `idca` and `idcl` |
| ProductModal.SelectCategory | src/components/modal/index.tsx:179-190 | `idca` takes the id; the selected category is `""` exactly when no offered entry has that id, else that entry's value |
| ProductModal.OfferedCategoryClassified | src/components/modal/index.tsx:179-190 | a known type offers one category, and it has classifications |
| ProductModal.OfferedCategoryUnlocksClassifications | src/components/modal/index.tsx:173-190 | picking any offered category makes the classification options non-empty |
| ProductModal.SelectClassification | src/components/modal/index.tsx:196-206 | only `idcl` changes |
| ProductModal.Edit | src/components/modal/index.tsx:165-282 | the edited field takes the value, and every other field and the editors stay |
| ProductModal.Step | src/components/modal/index.tsx:284-311 | menu-only editors take events only for `menu`; each add, remove or change event applies its editor's operation to its own rows and leaves the rest of the state alone; a save writes only its own field, the datasheet in the mode of the current type; the product type never changes |
| ProductModal.MenuEditorsShown | src/components/modal/index.tsx:284-303 | the optional and removal editors are on screen exactly for the `menu` product type |
| ProductModal.HiddenEditorsKeepRows | src/components/modal/index.tsx:284-303 | outside menus no event changes the optional or removal rows, and the editors stay hidden |
| ProductModal.SavesAreIndependent | src/components/modal/index.tsx:77-99 | saving one editor leaves the fields of the other two alone |
| ProductModal.Submit | src/components/modal/index.tsx:104-132 | a body is sent exactly when the draft is valid under the as-written schema, and it is the parsed draft; otherwise the issues are reported |
| ProductModal.InitialState | src/components/modal/index.tsx:48-72 | on mount: no category or classification options, menu editors hidden, non-menu datasheet row, submission refused for the title |
| ProductForm.Errors | src/hooks/useProductForm.ts:7-27 | a field is reported exactly when it breaks its bound |
| ProductForm.ValidIffNoErrors | src/hooks/useProductForm.ts:7-27 | the values are valid exactly when no field is reported |
| ProductForm.Valid | src/hooks/useProductForm.ts:7-27 | title of 2 to 100 characters, non-empty type, classification, category, partner, price and offer, measure of at most 3 |
| ProductForm.DefaultsInvalid | src/hooks/useProductForm.ts:39-55 | the defaults fail exactly title, type, classification, category, partner, price and offer |
| ProductForm.CodeUnits | src/hooks/useProductForm.ts:86 | `split('')`/`charCodeAt`: one or two UTF-16 units, a single unit exactly for the basic plane |
| ProductForm.CodeUnitSumAppend | src/hooks/useProductForm.ts:86 | the code-unit sum of a concatenation is the sum of the sums |
| ProductForm.IdHash | src/hooks/useProductForm.ts:84-93 | as written: the code-unit sum modulo 1000, below 1000 |
| ProductForm.IdHashOrderBlind | src/hooks/useProductForm.ts:85-88 | swapping two halves of a value does not change its id |
| ProductForm.SeloAndSopaListed | src/constants/product-options.ts:36-50 | `selo` and `sopa` are both categories of the table |
| ProductForm.SeloAndSopaSums | src/hooks/useProductForm.ts:85-88 | both code-unit sums are 435 |
| ProductForm.IdHashCollides | src/hooks/useProductForm.ts:84-88 | two distinct categories get the same id 435 |
| ProductForm.TableId | src/hooks/useProductForm.ts:84-93 | corrected: a value of the table gets its position, any other its hash; below 1000 |
| ProductForm.TableIdUnique | src/hooks/useProductForm.ts:84 | distinct values of the table get distinct ids |
| ProductForm.CorrectedCategoryId | src/hooks/useProductForm.ts:85-88 | corrected: below 1000, and a listed category's id is its position in the list of all categories |
| ProductForm.CorrectedClassificationId | src/hooks/useProductForm.ts:89-93 | corrected: below 1000, and a listed classification's id is its position in the list of all classifications |
| ProductForm.CategoryIdUnique | src/hooks/useProductForm.ts:85-88 | corrected: distinct categories of the table get distinct ids |
| ProductForm.ClassificationIdUnique | src/hooks/useProductForm.ts:89-93 | corrected: distinct classifications of the table get distinct ids |
| ProductForm.EmptyToNull | src/hooks/useProductForm.ts:100-103 | `x \|\| null`: `""` and absent become `null`, anything else is kept |
| ProductForm.BuildPayload | src/hooks/useProductForm.ts:81-106 | as written: `idca` and `idcl` are the code-unit-sum ids, below 1000; optional texts `null` exactly when absent or `""`, and otherwise the typed text; the upload's URL as image; title, type, partner, measure, price, offer and status copied |
| ProductForm.SeloAndSopaPostSameId | src/hooks/useProductForm.ts:84-106 | as written, a product in `selo` and one in `sopa` are posted with the same `idca` |
| ProductForm.BuildPayloadCorrected | src/hooks/useProductForm.ts:81-106 | corrected: the same payload except that `idca` and `idcl` are the table positions |
| ProductForm.CorrectedPayloadSeparatesSeloAndSopa | src/hooks/useProductForm.ts:84-88 | corrected, `selo` and `sopa` are posted with different `idca` |
| ProductForm.Begin | src/hooks/useProductForm.ts:59-61 | submitting, error cleared, success cleared; values and image kept |
| ProductForm.Failed | src/hooks/useProductForm.ts:113-120 | a non-empty error message, the guard released, values and image kept |
| ProductForm.Succeeded | src/hooks/useProductForm.ts:110-120 | success set, image cleared, form back to its defaults, guard released |
| ProductForm.OnSubmit | src/hooks/useProductForm.ts:58-121 | upload only with an image and no post after a failed upload; the post carries the as-written payload; success exactly when the post went out and succeeded; on failure values and image kept and the message reduced |
| ProductForm.HandleSubmit | src/hooks/useProductForm.ts:129 | invalid values change nothing and send nothing; a post implies valid values |
| ProductForm.FailedSubmitRetries | src/hooks/useProductForm.ts:113-120 | after a failure, submitting again with the same responses gives the same run |
| ProductForm.ResetSuccess | src/hooks/useProductForm.ts:133 | only the success flag is cleared |
| ProductForm.HandleImageSelect | src/hooks/useProductForm.ts:123-125 | only the selected image changes |
| RegisterPage.SetProductType | src/app/register/product/page.tsx:53-58 | a change to a non-empty type clears classification and category; otherwise only the type changes |
| RegisterPage.SetClassification | src/app/register/product/page.tsx:61-65 | a change to a non-empty classification clears the category; otherwise only the classification changes |
| RegisterPage.SetCategory | src/app/register/product/page.tsx:48-65 | no effect is attached: only the category changes |
| RegisterPage.AvailableClassifications | src/app/register/product/page.tsx:68-70 | `[]` without a type, else the type's classifications |
| RegisterPage.AvailableCategories | src/app/register/product/page.tsx:71-73 | `[]` without a classification, else its categories |
| RegisterPage.DisabledSelectsAreEmpty | src/app/register/product/page.tsx:244-259 | a disabled select has no options |
| RegisterPage.Consistent | src/app/register/product/page.tsx:66-73 | every chosen classification and category is among the options the page offers for it |
| RegisterPage.SetProductTypeConsistent | src/app/register/product/page.tsx:53-73 | choosing a non-empty type keeps every chosen value among the offered ones |
| RegisterPage.SetClassificationConsistent | src/app/register/product/page.tsx:61-73 | choosing an offered classification keeps the selects consistent and offers three categories |
| RegisterPage.SetCategoryConsistent | src/app/register/product/page.tsx:71-73 | choosing an offered category keeps the selects consistent |
| RegisterPage.ClearingTypeKeepsClassification | src/app/register/product/page.tsx:53-58 | emptying the type keeps any chosen classification while nothing is offered, so the selects are inconsistent |
| RegisterPage.HandleImageAnalysis | src/app/register/product/page.tsx:75-82 | with the files passed as the hook's parameter type asks: the hook's failure is caught, the handler completes normally and the error stays in the hook's state |
| RegisterPage.AnalyzeBareFile | src/hooks/useAIProductGeneration.ts:40-93 | the hook called with one bare `File`: no request is ever sent; unless a call is running, it ends with the default error stored and thrown |
| RegisterPage.BareFileNeverReachesServer | src/app/register/product/page.tsx:75-77 | for every server answer, the bare-`File` call ends as a request failing without a message would, while the array call posts to the single-image endpoint |
| RegisterPage.WrappedFileReachesServer | src/app/register/product/page.tsx:75-77 | corrected: wrapping the file in an array posts it under `image` to the single-image endpoint and shows the server's product |
| RegisterPage.HandleImageAnalysisAsRun | src/app/register/product/page.tsx:75-82 | the page's handler as it runs: it completes normally and, unless a call is running, leaves the card with the default error and no product |
| AiGeneration.BuildRequest | src/hooks/useAIProductGeneration.ts:43-85 | the single-image endpoint exactly for one file; every file, in order, under `image` or `images` |
| AiGeneration.NoFilesPostMultiple | src/hooks/useAIProductGeneration.ts:44-72 | no files post to the multiple-image endpoint with no part |
| AiGeneration.Begin | src/hooks/useAIProductGeneration.ts:36-38 | running, with error and product cleared |
| AiGeneration.Analyze | src/hooks/useAIProductGeneration.ts:28-98 | ignored while running; otherwise one request, the product or the reduced non-empty error, and the guard released |
| AiGeneration.OverlappingCallIgnored | src/hooks/useAIProductGeneration.ts:29-33 | a call during a running one sends nothing and changes nothing |
| AiGeneration.NextCallServed | src/hooks/useAIProductGeneration.ts:94-97 | after any finished call the next call is served |
| AiGeneration.ClearGeneration | src/hooks/useAIProductGeneration.ts:100-103 | product and error cleared, guard untouched |
| AiGeneration.ClearAfterRunIsInitial | src/hooks/useAIProductGeneration.ts:94-103 | clearing after a finished call gives the initial state |
| GeneratedProductView.AnalysisMethodInfo | src/components/ui/ai-generated-product.tsx:65-115 | purple exactly for the two vision tags, blue for the two intermediate fallbacks, yellow for `simple-fallback`, gray with `Produto Gerado` for any other or none |
| GeneratedProductView.MultiImageBanner | src/components/ui/ai-generated-product.tsx:136 | the multiple-images banner shows exactly when the processed count is present and above one |
| GeneratedProductView.JointAnalysisWording | src/components/ui/ai-generated-product.tsx:146-148 | the joint-analysis sentence is chosen exactly when the used count is present and above one |
| GeneratedProductView.RateLimitBanner | src/components/ui/ai-generated-product.tsx:154 | the rate-limit warning shows exactly when the flag is present and true |
| GeneratedProductView.ImagesBanner | src/components/ui/ai-generated-product.tsx:136-151 | a banner exactly under the banner condition, carrying the processed count; the joint sentence, with the used count, exactly when both conditions hold, else the first-image sentence; a stray `0` exactly for a processed count of 0 |
| GeneratedProductView.JointWordingNeedsBanner | src/components/ui/ai-generated-product.tsx:136-148 | without a processed count the joint sentence never shows, whatever the used count |
| GeneratedProductView.SingleImageNoBanner | src/components/ui/ai-generated-product.tsx:136 | no count, or a count of at most one, shows no multi-image banner |
| GeneratedProductView.DisplayName | src/components/ui/ai-generated-product.tsx:214-226 | only the first `_` becomes a space; the length is kept |
| GeneratedProductView.DisplayNameAtFirstUnderscore | src/components/ui/ai-generated-product.tsx:214 | for any text whose first underscore follows a prefix without one, that underscore becomes a space and everything after it, later underscores included, is kept |
| GeneratedProductView.TypeLabelsOfKnownTypes | src/components/ui/ai-generated-product.tsx:56-63 | `souvenir`, `menu` and `vestuario` read `Souvenir`, `Menu` and `Vestuário`; `""` is shown as it is |
| GeneratedProductView.DisplayNameOfTwoUnderscores | src/components/ui/ai-generated-product.tsx:214 | `"a_b_c"` shows as `"a b_c"` |
| GeneratedProductView.StatusText | src/components/ui/ai-generated-product.tsx:237 | `pending` reads `Pendente`, anything else is shown as it is |
| Dashboard.Filtered | src/app/page.tsx:87-96 | an order-preserving subsequence; every matching product keeps its multiplicity, every other one is gone |
| Dashboard.Matches | src/app/page.tsx:87-96 | the lower-cased title contains the lower-cased search, and each filter is `all` or equals the product's field |
| Dashboard.UnfilteredIsEverything | src/app/page.tsx:87-96 | an empty search with both filters at `all` lists every product, in order |
| Dashboard.SearchIgnoresCase | src/app/page.tsx:88-90 | lower-casing the search term does not change the match |
| Dashboard.FilteredIdempotent | src/app/page.tsx:87-96 | filtering the filtered list changes nothing |
| Dashboard.StatusLabel | src/app/page.tsx:106-113 | the three known statuses get their labels, any other is echoed |
| Dashboard.FetchProducts | src/app/page.tsx:42-53 | loading ends either way; the list is replaced on success, the error set on failure |
| Dashboard.RequestDelete | src/app/page.tsx:56-58 | opens the dialog on the product, nothing else changes |
| Dashboard.WithoutSku | src/app/page.tsx:69-71 | every product with that sku goes; every other keeps its order and multiplicity |
| Dashboard.ConfirmDelete | src/app/page.tsx:60-80 | nothing without a product; success removes the sku and closes the dialog; failure keeps the list and the open dialog |
| Dashboard.ConfirmedDeleteRemoves | src/app/page.tsx:60-74 | a confirmed deletion of a listed product shortens the list and leaves no product with its sku |
| Dashboard.CancelDelete | src/app/page.tsx:82-84 | the dialog closes and forgets the product |
| TypeRegistry.Message | src/hooks/useTypeForm.ts:6-15 | a name passes exactly with 2 to 50 characters, category and status exactly when non-empty |
| TypeRegistry.Errors | src/hooks/useTypeForm.ts:6-15 | a field is reported exactly when it has a message |
| TypeRegistry.ValidIffNoErrors | src/hooks/useTypeForm.ts:6-15 | valid exactly when no field is reported |
| TypeRegistry.Valid | src/hooks/useTypeForm.ts:6-15 | a name of 2 to 50 characters, and a non-empty category and status |
| TypeRegistry.DefaultsRefused | src/hooks/useTypeForm.ts:37-44 | the defaults fail exactly name (too short) and category |
| TypeRegistry.NewType | src/hooks/useTypeForm.ts:53-57 | the new type carries the clock's id and time and exactly the form values |
| TypeRegistry.Submit | src/hooks/useTypeForm.ts:46-75 | invalid values change nothing; valid ones append one type after the unchanged list, report success and reset the form |
| TypeRegistry.Delete | src/hooks/useTypeForm.ts:77-79 | no type with that id is left; every other type keeps its order and multiplicity |
| TypeRegistry.ResetSuccess | src/hooks/useTypeForm.ts:87 | only the success flag is cleared |
| TypeRegistry.DeletePresentShortens | src/hooks/useTypeForm.ts:77-79 | deleting the id of a listed type shortens the list |
| TypeRegistry.DeleteIdempotent | src/hooks/useTypeForm.ts:77-79 | deleting twice equals deleting once |
| TypeRegistry.DeleteUndoesSubmit | src/hooks/useTypeForm.ts:53-79 | deleting the type just added under a fresh id restores the list |
| TypeRegistry.SameMillisecondDeleteRemovesBoth | src/hooks/useTypeForm.ts:54-79 | two submissions in the same millisecond share an id, and one deletion removes both |
| ProductImage.ApiUrl | src/components/ui/product-image.tsx:65 | the configured address when non-empty, else `http://localhost:3333` |
| ProductImage.ImageUrl | src/components/ui/product-image.tsx:66 | a source starting with `http` is used as it is, any other is appended to the address |
| ProductImage.Render | src/components/ui/product-image.tsx:21-77 | placeholder exactly for a missing or empty source or after an error; plain image exactly for `data:` sources; otherwise the resolved URL |
| ProductImage.OnError | src/components/ui/product-image.tsx:59 | the error flag is set |
| ProductImage.ErrorIsPermanent | src/components/ui/product-image.tsx:19-21 | after an error, every source renders the placeholder |
| ProductImage.ImageUrlEndsWithSource | src/components/ui/product-image.tsx:66 | the resolved URL ends with the source |
| ProductImage.ImageUrlIdempotent | src/components/ui/product-image.tsx:66 | with an absolute address, resolving a resolved URL changes nothing |
| ProductImage.RelativePathUsesDefault | src/components/ui/product-image.tsx:65-66 | any non-empty source that starts with neither `http` nor `data:` loads from `http://localhost:3333` followed by the source when no address is configured |

## Left out

- HTTP, the upload endpoint, `console` logging and `alert` are not modelled as effects. Responses are inputs, and the requests are datatypes.
- Numeric conversion (`Number`, `parseInt`, `parseFloat`) and floating point are not modelled. The payloads carry the text that would be converted; only whether `Number(s)` is NaN is modelled. Price formatting with `Intl` and date formatting are left out too.
- The clock (`Date.now()`, `toISOString`) and `NEXT_PUBLIC_API_URL` are parameters.
- React's batching and effect scheduling are not modelled. Each handler, together with the effects it triggers, is one atomic transition. Two handlers that interleave across an `await` are not modelled.
- Rendering, styling, icons and the other presentational components are not modelled: form inputs and selects, the upload and analyzer widgets, and the menu-OCR analyzer, which has no logic in the hooks of the core.
- The register page's handler passes one `File` to a hook parameter typed `File[]` (`src/app/register/product/page.tsx:77`).
  - The build ignores type errors (`ignoreBuildErrors` at `next.config.ts:31`).
  - A `File` has no `length`, so the hook takes the multiple-image branch. `imageFiles.forEach` then throws inside the `try` (`src/hooks/useAIProductGeneration.ts:63`).
  - So every analysis started from the page sends no request and ends with the error `"Erro ao analisar imagem com IA"`.
  - RegisterPage.AnalyzeBareFile and RegisterPage.HandleImageAnalysisAsRun model that run.
  - RegisterPage.HandleImageAnalysis models the hook's typed contract, with the files as a sequence (the corrected half of the third finding).
- The next.config settings and the axios instance's base URL are not part of this model.
- ProductForm.Valid, TypeRegistry.Message, ProductSchema.Bounded, ProductSchema.DescriptionValid: the title, name and description lengths count characters, while JavaScript's `length` and zod count UTF-16 code units. The two differ for characters outside the basic plane.
- Strings.LowerChar: lower-cases ASCII and Latin-1 capitals only, while `toLowerCase` covers all of Unicode.
- ProductSchema.Issues: states which fields are listed, but not that they appear in schema order, although the recursion follows that order.
- GeneratedProductView.AnalysisMethodInfo: states the colour and the default title; the other titles and descriptions are constants in the body but are not stated in the contract.
- GeneratedProductView.ImagesBanner: the banner's sentences are named by their case, and their literal text is not stated; the rate-limit banner's text is not stated either.
- Object-prototype keys are not modelled. In the source, `table[key]` on a key such as `constructor` finds an inherited property; the maps here only know their listed keys.
- Dashboard.FetchProducts: the effect that runs it once on mount is not modelled.

## Findings

| source | as written | input that shows it | evidently intended | confidence | as-written member | corrected member |
|---|---|---|---|---|---|---|
| src/components/modal/schemas/productSchema.ts:65-73 | the refinement checks `Number` of the raw price or offer text, before the transform removes `R$` and rewrites `,`; every accepted value therefore has neither, and the rewrite never applies | `"R$99,99"`, the price field's own placeholder, is rejected | normalise the currency text first, then require a number, so `"R$99,99"` parses as `99.99` | not executed | ProductSchema.MoneyFieldAsWritten, ProductSchema.MoneyRewriteIsDead, ProductSchema.PlaceholderPrice, ProductSchema.Parse | ProductSchema.MoneyField, ProductSchema.MoneyFieldExtendsAsWritten, ProductSchema.PlaceholderPrice, ProductSchema.ParseCorrected |
| src/hooks/useProductForm.ts:84-93 | the comment promises unique ids, but the id is the code-unit sum modulo 1000 | categories `"selo"` and `"sopa"` both get id 435 | one id per taxonomy value; the corrected payload uses the value's position in the table | not executed | ProductForm.IdHash, ProductForm.IdHashCollides, ProductForm.BuildPayload, ProductForm.SeloAndSopaPostSameId | ProductForm.TableId, ProductForm.CorrectedCategoryId, ProductForm.CategoryIdUnique, ProductForm.ClassificationIdUnique, ProductForm.BuildPayloadCorrected, ProductForm.CorrectedPayloadSeparatesSeloAndSopa |
| src/app/register/product/page.tsx:75-82 | `handleImageAnalysis` passes the single `File` itself where the hook expects `File[]`; at run time the hook's `imageFiles.forEach` throws before any request is built | any image the analyzer hands to the page | wrap the file in an array, `analyzeProductImage([imageFile])`, so it is posted to the single-image endpoint | not executed | RegisterPage.AnalyzeBareFile, RegisterPage.BareFileNeverReachesServer, RegisterPage.HandleImageAnalysisAsRun | RegisterPage.HandleImageAnalysis, RegisterPage.WrappedFileReachesServer |
