# Homemade-sweets inventory screen, modelled in Dafny

`EstoqueDoces` is the one screen of a small stock-keeping app for a homemade-sweets
business. It loads the batches from a remote table and gives each one a shelf-life status
from its expiry date: 'Vencido' (expired), 'Próximo do vencimento' (expiring soon) or
'Disponível' (available). It filters the list by flavour, category and maximum price, and
shows an empty-state row when nothing passes. It also registers new batches through a
form whose draft must have five required fields filled in.

The model covers that screen's logic:

- `Text` (text.dfy): ASCII lower-casing, substring search and
  first-occurrence replacement, the string operations the screen uses.
- `Records` (records.dfy): the loaded row and the three status labels.
- `Expiry` (expiry.dfy): the status classifier and the re-annotation done
  on every load.
- `Filters` (filters.dfy): the filter predicate, the visible rows and the
  empty-state row.
- `Form` (form.dfy): the draft, its keys and the inputs made from them,
  the captions, and the required-field check.
- `Inventory` (inventory.dfy): the screen's `useState` fields as a class,
  with the load, registration, form-edit, filter-edit and details-dialog handlers.
- `Wrappers` (wrappers.dfy): `Option`.

Times are integer milliseconds. The host's date parser and the clock are parameters.
`midnight` maps a 'YYYY-MM-DD' text to the timestamp of its local midnight, or None when
the text does not parse. Every store call is replaced by what it returned.

Points about the code's behaviour:

- The registration check only tests that the five required fields are non-empty. It
  shows one fixed message and produces no list of missing fields.
- It does not check that the quantity and price parse as numbers.
- A row whose expiry date does not parse gets 'Disponível': both comparisons with an
  invalid date are false.
- An expiry equal to the current instant is 'expiring soon', not 'expired'.

## Model

| member | source | states |
|---|---|---|
| Text.Lower | src/components/EstoqueDoces.tsx:76-77 | lower-casing keeps the length and folds every position independently |
| Text.LowerIdempotent | src/components/EstoqueDoces.tsx:76-77 | folding an already folded text changes nothing |
| Text.Contains | src/components/EstoqueDoces.tsx:76-77 | `includes`, by trying every start from the left; the definition is the model, and `Text.ContainsIff` ties it to the occurrence indices |
| Text.ContainsIff | src/components/EstoqueDoces.tsx:76-77 | `includes` holds exactly when the needle occurs at some index of the text |
| Text.ContainsPrefixOfNeedle | src/components/EstoqueDoces.tsx:76-77 | a text containing `t + u` contains `t` |
| Text.LowerAppend | src/components/EstoqueDoces.tsx:76-77 | folding a concatenation folds each part |
| Text.ContainsLower | src/components/EstoqueDoces.tsx:76-77 | an exact-case occurrence survives folding both sides |
| Text.ReplaceFirstSpec | src/components/EstoqueDoces.tsx:208 | `replace` with a one-character pattern changes only the first occurrence, at its first index, and leaves a text without it unchanged |
| Text.ReplaceFirstAt | src/components/EstoqueDoces.tsx:208 | in `pre + a + post` with no `a` in `pre`, exactly that `a` becomes `b` |
| Text.ReplaceFirstCount | src/components/EstoqueDoces.tsx:208 | exactly one occurrence disappears; later ones are kept |
| Text.ReplaceFirst | src/components/EstoqueDoces.tsx:208 | `replace` with a one-character pattern; keeps the length, and otherwise the definition is the model, tied to `FirstIndex` by `Text.ReplaceFirstSpec` |
| Records.StatusLabel | src/components/EstoqueDoces.tsx:49-53 | every status is written as one of the three labels, and only Available is written 'Disponível' |
| Records.StatusLabelInjective | src/components/EstoqueDoces.tsx:49-53 | distinct statuses get distinct labels |
| Expiry.Classify | src/components/EstoqueDoces.tsx:44-54 | expired exactly when expiry-midnight < now; expiring soon exactly when now <= expiry <= now + 604 800 000 ms; available exactly beyond that |
| Expiry.ClassifyDate | src/components/EstoqueDoces.tsx:45-54 | an unparsable expiry date gives 'Disponível'; a parsed one is classified |
| Expiry.StatusOf | src/components/EstoqueDoces.tsx:44-54 | the status a row gets on load, from its parsed expiry date and now; the definition is the model |
| Expiry.WindowBoundaries | src/components/EstoqueDoces.tsx:46-52 | both ends of the seven-day window are 'soon'; one millisecond before now is expired, one after the window is available |
| Expiry.DayScenarios | src/components/EstoqueDoces.tsx:44-54 | expiring today (past midnight) is expired, in 3 days is soon, in 30 days is available |
| Expiry.LaterExpiryNoWorse | src/components/EstoqueDoces.tsx:50-53 | a later expiry date never has a worse status |
| Expiry.PassingTimeOnlyWorsens | src/components/EstoqueDoces.tsx:50-53 | as now advances a status can only get worse |
| Expiry.ClassifyShift | src/components/EstoqueDoces.tsx:52 | only the distance between expiry and now matters |
| Expiry.Annotate | src/components/EstoqueDoces.tsx:43-56 | same length and order; each row equals its input except `status`, which is the label of the derived status |
| Expiry.AnnotateIgnoresStoredStatus | src/components/EstoqueDoces.tsx:55 | rows differing only in their stored status annotate to the same list |
| Expiry.AnnotateIdempotent | src/components/EstoqueDoces.tsx:43-56 | re-annotating at the same time changes nothing |
| Expiry.AnnotateLabels | src/components/EstoqueDoces.tsx:43-56 | after a load every row carries one of the three labels |
| Filters.PriceOk | src/components/EstoqueDoces.tsx:75 | the price condition: no ceiling passes every row, a ceiling passes prices up to it, a non-number passes none; the definition is the model |
| Filters.SaborOk | src/components/EstoqueDoces.tsx:76 | the flavour condition: an empty box passes, otherwise a folded substring test; the definition is the model |
| Filters.CategoriaOk | src/components/EstoqueDoces.tsx:77 | the category condition: an empty box passes, a row without category fails, otherwise a folded substring test; the definition is the model |
| Filters.Matches | src/components/EstoqueDoces.tsx:74-78 | `aplicarFiltros`, the conjunction of the three conditions; the definition is the model |
| Filters.ShowsEmptyRow | src/components/EstoqueDoces.tsx:252-257 | the empty-state row is rendered when the filtered list is empty; the definition is the model |
| Filters.Visible | src/components/EstoqueDoces.tsx:252-259 | the shown rows are no more than the loaded rows and each passes the criteria |
| Filters.VisibleCounts | src/components/EstoqueDoces.tsx:259 | a passing row is shown as often as it was loaded, a failing row never |
| Filters.VisibleIsSubsequence | src/components/EstoqueDoces.tsx:259 | the shown rows are a subsequence of the loaded rows in their order |
| Filters.VisibleMembership | src/components/EstoqueDoces.tsx:259 | a row is shown iff it was loaded and passes the criteria |
| Filters.EmptyRowIff | src/components/EstoqueDoces.tsx:252-257 | 'Nenhum doce encontrado' appears iff no loaded row passes |
| Filters.NoCriteriaShowsAll | src/components/EstoqueDoces.tsx:74-78 | with all boxes empty every row matches and the whole list is shown |
| Filters.NarrowingShrinks | src/components/EstoqueDoces.tsx:74-78 | setting an extra criterion can only drop rows |
| Filters.NarrowingFiltersVisible | src/components/EstoqueDoces.tsx:74-78 | filtering by narrower criteria equals filtering the already filtered rows |
| Filters.LongerSaborNarrows | src/components/EstoqueDoces.tsx:76 | typing more into the flavour box can only drop rows |
| Filters.LongerCategoriaNarrows | src/components/EstoqueDoces.tsx:77 | typing more into the category box can only drop rows |
| Filters.LowerLimitNarrows | src/components/EstoqueDoces.tsx:75 | a lower price ceiling can only drop rows |
| Filters.PriceBoundInclusive | src/components/EstoqueDoces.tsx:75 | with the other criteria met, a row passes a ceiling m iff its price <= m |
| Filters.PriceScenario | src/components/EstoqueDoces.tsx:75 | a ceiling of 10.50 keeps a 10.50 row and drops a 10.51 row |
| Filters.NotANumberHidesAll | src/components/EstoqueDoces.tsx:75 | a ceiling that is not a number shows the empty-state row |
| Filters.NoCategoryNeverMatches | src/components/EstoqueDoces.tsx:77 | a row without a category fails any category criterion |
| Filters.SaborIsFoldedSubstring | src/components/EstoqueDoces.tsx:76 | the flavour criterion holds iff the folded criterion occurs in the folded flavour |
| Filters.MatchIgnoresCase | src/components/EstoqueDoces.tsx:76-77 | folding the row's texts and the criteria's texts does not change the verdict |
| Filters.FoundByFoldedSearch | src/components/EstoqueDoces.tsx:76 | a search that folds to the row's folded flavour finds the row |
| Filters.MorangoScenario | src/components/EstoqueDoces.tsx:76 | a 'Morango' row is found by 'morango' and by 'MORANGO' |
| Form.Set | src/components/EstoqueDoces.tsx:216 | the edited key reads the new text and every other key reads what it did |
| Form.Get | src/components/EstoqueDoces.tsx:205 | `novoDoce[key]`, the field each key reads; the definition is the model |
| Form.InitialDraft | src/components/EstoqueDoces.tsx:14-24 | the initial draft, also the value restored at lines 107-111; the definition is the model |
| Form.FormKeys | src/components/EstoqueDoces.tsx:205-206 | the keys that get an input, in order; bounded by the key list, and otherwise the definition is the model |
| Form.DraftByKeys | src/components/EstoqueDoces.tsx:14-24 | a draft is determined by its nine keys |
| Form.DraftKeysComplete | src/components/EstoqueDoces.tsx:14-24 | the key list holds every key, once |
| Form.KeyNameInjective | src/components/EstoqueDoces.tsx:14-24 | distinct keys have distinct property names |
| Form.FormKeysMembers | src/components/EstoqueDoces.tsx:205-206 | a key gets an input iff it is a draft key other than `status` |
| Form.DraftFormKeys | src/components/EstoqueDoces.tsx:205-206 | the form shows the eight non-status keys in declaration order |
| Form.FormEditKeepsStatus | src/components/EstoqueDoces.tsx:206-216 | no form input changes the draft's status |
| Form.HasRequiredFields | src/components/EstoqueDoces.tsx:84 | the required-field check; the definition is the model |
| Form.RequiredByKey | src/components/EstoqueDoces.tsx:84 | the check passes iff nome, sabor, quantidade, preco and data_validade are all non-empty |
| Form.OptionalFieldsNotRequired | src/components/EstoqueDoces.tsx:84 | categoria, data_fabricacao and observacoes do not affect the check |
| Form.ClearingRequiredFails | src/components/EstoqueDoces.tsx:84 | emptying any required field makes the check fail |
| Form.InitialDraftBlank | src/components/EstoqueDoces.tsx:14-24 | the initial draft is blank except status 'Disponível', so it fails the check |
| Form.FieldLabel | src/components/EstoqueDoces.tsx:208 | the caption `key.replace('_', ' ')` beside each input, and at line 309 in the details dialog; keeps the length, and otherwise the definition is the model |
| Form.FieldLabelSpec | src/components/EstoqueDoces.tsx:208 | a key without underscore is its own caption; otherwise the caption has a space where the first underscore was and keeps every other character |
| Form.DateKeyLabel | src/components/EstoqueDoces.tsx:208 | a 'data_' key is captioned 'data ' followed by the rest of the key |
| Form.FieldLabelOnlyFirst | src/components/EstoqueDoces.tsx:208 | a caption keeps every underscore after the first |
| Form.FabricacaoLabel | src/components/EstoqueDoces.tsx:208 | data_fabricacao is captioned 'data fabricacao' |
| Form.ValidadeLabel | src/components/EstoqueDoces.tsx:208 | data_validade is captioned 'data validade' |
| Form.DraftLabels | src/components/EstoqueDoces.tsx:208 | every draft key's caption: date keys get a space, the others are unchanged |
| Form.InputFor | src/components/EstoqueDoces.tsx:211-219 | the `type`, `step` and `min` given to a key's input; the definition is the model |
| Form.InputTable | src/components/EstoqueDoces.tsx:211-219 | the type, step and minimum of every key's input |
| Form.FormInputs | src/components/EstoqueDoces.tsx:211-219 | number inputs are exactly quantity and price, and exactly they have minimum 0; date inputs are exactly the two dates; only price steps by 0.01 |
| Inventory.AtMostOneDialogOpen | src/components/EstoqueDoces.tsx:286 | with unique ids at most one row's details dialog is open |
| Inventory.DialogOpen | src/components/EstoqueDoces.tsx:286 | a row's details dialog is open when the flag is set and that row is selected; the definition is the model |
| Inventory.DialogFollowsSelection | src/components/EstoqueDoces.tsx:286 | the selected row's dialog opens; none opens while the flag is off or nothing is selected |
| Inventory.EstoqueDoces.constructor | src/components/EstoqueDoces.tsx:13-27 | the initial state: no rows, initial draft, empty filters, nothing selected, dialog closed |
| Inventory.EstoqueDoces.FetchDoces | src/components/EstoqueDoces.tsx:31-67 | a successful load replaces the rows with their annotation; a failed one changes nothing; nothing else changes |
| Inventory.EstoqueDoces.CadastrarDoce | src/components/EstoqueDoces.tsx:82-125 | an insert is attempted iff the required fields are filled, with the draft as typed and status 'Disponível'; success resets the draft and reloads; failure or a missing field keeps draft and rows |
| Inventory.EstoqueDoces.EditDraft | src/components/EstoqueDoces.tsx:216 | an input other than the status sets the draft's field for its key to the typed text; the status stays 'Disponível' |
| Inventory.EstoqueDoces.SetSaborFilter | src/components/EstoqueDoces.tsx:170 | only the flavour criterion changes |
| Inventory.EstoqueDoces.SetCategoriaFilter | src/components/EstoqueDoces.tsx:180 | only the category criterion changes |
| Inventory.EstoqueDoces.SetPrecoMaxFilter | src/components/EstoqueDoces.tsx:191 | only the price criterion changes |
| Inventory.EstoqueDoces.OpenDetails | src/components/EstoqueDoces.tsx:291-294 | the row is selected and its dialog is open on exactly the rows sharing its id |
| Inventory.EstoqueDoces.SetDialogOpen | src/components/EstoqueDoces.tsx:286 | only the open flag changes; the selection is kept |
| Inventory.MissingQuantityScenario | src/components/EstoqueDoces.tsx:84-91 | a draft missing only the quantity is not sent and stays as typed |
| Inventory.CompleteRegistrationScenario | src/components/EstoqueDoces.tsx:84-112 | a complete draft is sent as typed; the form is cleared iff the insert succeeds |

## Left out

- Store calls (`select`/`order`, `insert`, `delete().eq`): remote I/O through a library that
  is not part of this model. Their outcomes are the `LoadResult` and `InsertResult`
  parameters. The recency order of the load is whatever order the rows arrive in.
- Deleting a batch (`excluirDoce`, with its `confirm()` prompt): a browser modal followed
  by a store call and a reload, with no local list change of its own.
- Clock and date parsing (`new Date()`, the 'T00:00:00' local-time parse, `getTime()`):
  host behaviour. They are the `now` and `midnight` parameters.
- `Expiry.Annotate`: takes one `now` for the whole list. The source reads the clock again
  for each row, so rows annotated a few milliseconds apart could straddle a boundary.
- `parseFloat`/`parseInt` and floating point: prices are exact `real`s, and the price box
  arrives already parsed as `Blank`, `Limit(m)` or `NotANumber`. The draft's numeric texts
  are sent as typed, without the conversion done at insert time.
- `Text.Lower`: folds ASCII capitals only, not the full Unicode `toLowerCase`.
- Rows whose flavour or price is null in the store: `Item` gives every row a text flavour
  and a numeric price. The source throws on a null flavour only while the flavour box is
  non-empty, since `toLowerCase` is reached only then. A null price passes any ceiling of
  0 or more, because `null <= m` compares as `0 <= m`.
- Columns of the table other than the ten in `Item` (`created_at`, used for the load order,
  among them): `select('*')` returns them, but the model does not carry them. So
  `Expiry.Annotate` keeping every field but `status` speaks of the modelled columns only.
- Asynchrony: `fetchDoces` after a successful insert is not awaited. The model applies
  its result at once.
- Inventory.EstoqueDoces.CadastrarDoce: treats the awaited insert as one atomic step.
  Edits typed while the insert is pending, which the reset after a success wipes, are not
  modelled. Nor is a second click on 'Adicionar Doce' while it is pending: the draft is
  reset only after success, so that click sends the same draft again and stores a
  duplicate row.
- Presentation: JSX, styling, row and cell class names (including the low-quantity
  highlight), the price formatting (`toLocaleString`), toasts, `console.error`, and the
  `useEffect` that triggers the first load.
