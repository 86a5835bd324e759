# Event Manager back office — a Dafny model

Event Manager is the back office of an Italian trade-fair exhibitor (Fior
d'Acqua). Sales staff keep customers (*clienti*), a product catalogue
(*prodotti*, grouped in *categorie*) and orders (*ordini*) with their lines
(*righe ordine*). They print an order or a quote (*preventivo*) as a PDF,
Grenke leasing quotes included, and they print blank paper order forms
(*moduli vuoti*) to fill in at a fair.

This project models the logic of that front end as pure Dafny functions and
proves properties of them:

- the order form: the cart, the subtotal, discount and total it shows, its
  add/remove/update handlers, validation and the payload it saves;
- the orders hook: the sequence of backend writes behind creating, updating
  and deleting an order, the totals it recomputes from the saved lines, and
  the result it reports;
- the order/quote PDF: the header, client block, sale-mode banner, Grenke
  model detection and leasing row, the line table, the totals block, the
  copies and the file name;
- the blank order form: filtering by product family, padding to 18 rows, the
  pre-filled event, the copies and the file name;
- the two print dialogs, with their copy counter clamped to 1..20;
- the CSV import: separator detection, cell cleaning, row checks, error
  listing and the import button;
- the customer and product forms: loading, change handling, validation and
  submission, plus product-code generation;
- the product and customer caches: fetch, create, update and soft-delete,
  keeping each list sorted;
- the orders table and orders page: status menu, two-click delete, cells,
  footer, filters, event options, counters and notifications;
- the product and customer autocompletes.

Backend calls, the file reader, `Math.random` and the clock are not run.
Each enters as a parameter: the outcome of a write, the text read from a
file, the drawn number. Money and quantities are `real`. Strings are
sequences of characters, each standing for one JavaScript UTF-16 code unit
(see "Left out" for characters outside the Basic Multilingual Plane).
Upper/lower-case mapping covers ASCII letters, and
JavaScript whitespace is listed code point by code point. Where a value's
JavaScript truthiness matters (`x || 0`, `s || 'fallback'`), the model
writes the truthiness test out.

## Model

| member | source | states |
|---|---|---|
| Wrappers.MessageOr | frontend/src/hooks/useOrdini.ts:108 | a caught `Error` yields its own message; any other thrown value yields the fallback text |
| Wrappers.StrOr | frontend/src/components/ClienteForm.tsx:39-49 | `s \|\| fallback`: a present non-empty string is kept; an absent or empty one becomes the fallback |
| Utils.ValidatePartitaIva | frontend/src/lib/utils.ts:68-71 | a VAT number is accepted exactly when, with all whitespace removed, it is eleven digits |
| Utils.ValidateCodiceFiscale | frontend/src/lib/utils.ts:73-76 | a tax code is accepted exactly when, with whitespace removed and upper-cased, it has 16 characters in the pattern 6 letters, 2 digits, letter, 2 digits, letter, 3 digits, letter |
| Utils.PartitaIvaIgnoresSpace | frontend/src/lib/utils.ts:69 | inserting a whitespace character anywhere in a VAT number never changes the verdict |
| Utils.CodiceFiscaleIgnoresCase | frontend/src/lib/utils.ts:74 | the tax-code verdict is the same for the lower-cased input |
| Utils.Truncate | frontend/src/lib/utils.ts:33-36 | text within the limit is returned unchanged; longer text becomes a prefix of it of the limit's length (none for a negative limit) followed by "..." |
| Utils.Capitalize | frontend/src/lib/utils.ts:44-47 | same length; the first character upper-cased, every later character lower-cased |
| Utils.CapitalizeIdempotent | frontend/src/lib/utils.ts:44-47 | capitalising a capitalised text changes nothing |
| Utils.FilterNonEmpty | frontend/src/lib/utils.ts:62 | keeps exactly the non-empty words |
| Utils.FilterNonEmptyConcat | frontend/src/lib/utils.ts:60-62 | filtering distributes over concatenation |
| Utils.GetInitials | frontend/src/lib/utils.ts:59-66 | at most two letters: the upper-cased first letters of the first two non-empty words, in order |
| Utils.InitialsIgnoreRepeatedSpaces | frontend/src/lib/utils.ts:61-62 | two spaces between words give the same initials as one |
| Utils.BadgeColorsDistinct | frontend/src/lib/utils.ts:49-57 | the four states have four different colours, none of them the grey fallback |
| OrdineForm.SubtotalConcat | frontend/src/components/OrdineForm.tsx:77 | the subtotal of two carts laid end to end is the sum of their subtotals |
| OrdineForm.SubtotalCons | frontend/src/components/OrdineForm.tsx:77 | summing from the front gives the same subtotal |
| OrdineForm.SubtotalNonNegative | frontend/src/components/OrdineForm.tsx:77 | lines with non-negative quantity and price give a non-negative subtotal |
| OrdineForm.PercentDiscountBounds | frontend/src/components/OrdineForm.tsx:80-85 | a percentage in [0, 100] takes between nothing and all of the subtotal, so the total stays between 0 and the subtotal |
| OrdineForm.SyncEffect | frontend/src/components/OrdineForm.tsx:87-99 | the effect stores the cart's subtotal, keeps the percentage only when positive and leaves every field other than the four totals alone |
| OrdineForm.SyncEffectSettles | frontend/src/components/OrdineForm.tsx:80-99 | one run of the effect keeps the displayed discount and total, and leaves the form synced: the stored subtotal, discount and total are the displayed ones and any percentage left is positive |
| OrdineForm.SyncedIffFixpoint | frontend/src/components/OrdineForm.tsx:80-99 | a form is synced exactly when running the effect again changes nothing, so the effect settles after one re-run |
| OrdineForm.PercentOverridesValue | frontend/src/components/OrdineForm.tsx:81-83 | once a percentage is set, zero included, the absolute discount is ignored; a zero percentage gives no discount |
| OrdineForm.DiscountScenario | frontend/src/components/OrdineForm.tsx:77-85 | 2 × 100 plus 1 × 50 at 10% gives subtotal 250, discount 25, total 225; with an absolute discount of 30 the total is 220 |
| OrdineForm.FindProdotto | frontend/src/components/OrdineForm.tsx:72 | absent exactly when no product has the id; otherwise the first product with that id |
| OrdineForm.HasEspositori | frontend/src/components/OrdineForm.tsx:71-74 | true exactly when some cart line's product, looked up in the catalogue, is in a display-unit category |
| OrdineForm.AddLine | frontend/src/components/OrdineForm.tsx:166-190 | a product already in the cart has the quantity added to its line and nothing else changes; a new product gets one line at list price with an empty note, appended at the end |
| OrdineForm.Merge | frontend/src/components/OrdineForm.tsx:171-177 | every line of that product gains the quantity; other lines are unchanged |
| OrdineForm.AddLineKeepsUnique | frontend/src/components/OrdineForm.tsx:166-190 | adding keeps every product on at most one line |
| OrdineForm.SubtotalMerge | frontend/src/components/OrdineForm.tsx:171-177 | merging into a product's only line raises the subtotal by the quantity times that line's price |
| OrdineForm.AddNewLineSubtotal | frontend/src/components/OrdineForm.tsx:180-189 | adding a new product raises the subtotal by the quantity times its list price |
| OrdineForm.AddMergedLineSubtotal | frontend/src/components/OrdineForm.tsx:169-177 | adding a product already in the cart uses the price on its line, not the current list price |
| OrdineForm.RemoveLine | frontend/src/components/OrdineForm.tsx:198-200 | drops exactly the lines of that product and keeps the others |
| OrdineForm.RemoveLineSubtotal | frontend/src/components/OrdineForm.tsx:198-200 | removing a product subtracts its line's amount from the subtotal |
| OrdineForm.RemoveMissing | frontend/src/components/OrdineForm.tsx:198-200 | removing a product that is not in the cart changes nothing |
| OrdineForm.SetQuantita | frontend/src/components/OrdineForm.tsx:202-214 | a quantity of zero or less removes the product; any other quantity replaces only that product's quantity, leaving every other field and line alone |
| OrdineForm.SetPrezzo | frontend/src/components/OrdineForm.tsx:216-224 | only the price of that product's line changes |
| OrdineForm.UpdatesKeepUnique | frontend/src/components/OrdineForm.tsx:198-224 | removal and both updates keep product ids unique |
| OrdineForm.RemoveKeepsUnique | frontend/src/components/OrdineForm.tsx:198-200 | removal keeps product ids unique |
| OrdineForm.Aggiungi | frontend/src/components/OrdineForm.tsx:152-164 | refuses an empty selection first, then a quantity outside (0, 9999.99], then silently an id missing from the catalogue; otherwise it adds a catalogue product with that id |
| OrdineForm.OnAggiungi | frontend/src/components/OrdineForm.tsx:152-196 | a refusal records only its message; an unknown id changes nothing; a success resets the picker to no product and quantity 1 and clears both picker errors |
| OrdineForm.Validate | frontend/src/components/OrdineForm.tsx:226-250 | one error per failing rule: no client; a blank event name; an empty cart; a set percentage outside [0, 100]; the client and event errors say the field is required, the cart error asks for at least one product, the percentage error gives the 0%–100% range |
| OrdineForm.ValidIff | frontend/src/components/OrdineForm.tsx:226-250 | the form is valid exactly when a client is chosen, the event name has a non-space character, the cart is not empty and any percentage lies in [0, 100] |
| OrdineForm.BuildRighe | frontend/src/components/OrdineForm.tsx:259-266 | one saved line per cart line, in order: same product, quantity and price; line subtotal q × p; 1-based position; an empty note sent as null |
| OrdineForm.BuildOrdine | frontend/src/components/OrdineForm.tsx:270-277 | the form fields unchanged, except: the percentage is kept only when positive; the absolute discount is always a number; the sale mode is sent only when the cart holds a display unit |
| OrdineForm.Submit | frontend/src/components/OrdineForm.tsx:252-279 | the save callback is called, with that order and those lines, exactly when the form validates |
| OrdiniHook.Perform | frontend/src/hooks/useOrdini.ts:60-110 | the writes are sent in order up to and including the first that fails; a failure is reported exactly when some write fails |
| OrdiniHook.Attach | frontend/src/hooks/useOrdini.ts:72-75 | every line keeps its fields and gets the order's id |
| OrdiniHook.Recompute | frontend/src/hooks/useOrdini.ts:84-90 | the patched subtotal is the sum of the line subtotals, and the total is subtotal minus discount |
| OrdiniHook.CreateOrdine | frontend/src/hooks/useOrdini.ts:60-110 | a failed insert, line insert or totals patch stops the sequence there and reports its message; otherwise the order, its lines under the new id, the totals patch and a reload, returning the new id |
| OrdiniHook.UpdateOrdineRun | frontend/src/hooks/useOrdini.ts:112-174 | the row update always comes first; without lines nothing else is written; with lines the old ones are deleted, the new ones inserted and the totals patched; a reload follows any success, and a failure is reported exactly when some write fails |
| OrdiniHook.UpdateStopsAtFirstFailure | frontend/src/hooks/useOrdini.ts:123-166 | a failing line delete, line insert or patch ends the writes at that step |
| OrdiniHook.DeleteOrdineRun | frontend/src/hooks/useOrdini.ts:176-191 | one delete of the order row, then a reload on success; the lines are never deleted |
| OrdiniHook.SumRigheOfCart | frontend/src/hooks/useOrdini.ts:84 | the hook's sum over the saved lines equals the form's subtotal |
| OrdiniHook.SavedTotalsMatchForm | frontend/src/hooks/useOrdini.ts:84-90 | for any form contents, the saved subtotal equals the form's; the saved discount and total equal the form's unless a zero percentage is set, in which case the save falls back to the absolute discount |
| OrdiniHook.SavedTotalsMatchSyncedForm | frontend/src/hooks/useOrdini.ts:84-90 | once the sync effect has run, the saved subtotal, discount and total are exactly the figures the form stored, with no exception |
| OrdiniHook.BothDiscountFieldsPersisted | frontend/src/hooks/useOrdini.ts:63-100 | a 10% order of subtotal 250 is inserted with its percentage and then patched with discount value 25 and total 225 |
| Grenke.Normalize | frontend/src/lib/pdfGenerator.ts:59-70 | the normalised name has only lower-case letters and digits |
| Grenke.NormalizeExamples | frontend/src/lib/pdfGenerator.ts:59-70 | "Espositore Leo IV Plus" normalises to "espositoreleo4plus" |
| Grenke.NormalizeKeepsGluedNumeral | frontend/src/lib/pdfGenerator.ts:64-67 | a numeral glued to a word ("leoiv") is not rewritten |
| Grenke.NormalizeNotIdempotent | frontend/src/lib/pdfGenerator.ts:59-70 | "leo-nardo" normalises to "leonardo", and normalising that again gives "leo" |
| Grenke.NormalizeFixpoint | frontend/src/lib/pdfGenerator.ts:59-70 | a lower-case alphanumeric name that contains no "leonardo" and is not itself a numeral is its own normal form |
| Grenke.AliasExample | frontend/src/lib/pdfGenerator.ts:61 | the alias replaces only the exact word "leonardo" |
| Grenke.ReplaceWordInsideWord | frontend/src/lib/pdfGenerator.ts:64-67 | no numeral is replaced inside a run of word characters that follows a word character |
| Grenke.ReplaceWordOtherWord | frontend/src/lib/pdfGenerator.ts:64-67 | a whole word that is not the numeral is left alone |
| Grenke.ReplaceWordSplit | frontend/src/lib/pdfGenerator.ts:64-67 | numeral replacement works word by word across a non-word separator |
| Grenke.RomanToDigitsSplit | frontend/src/lib/pdfGenerator.ts:63-67 | the four numeral replacements work word by word across a non-word separator |
| Grenke.ModelKeyOf | frontend/src/lib/pdfGenerator.ts:72-80 | the first model of leo2, leo3, leo4, leo5, titano whose name occurs in the normalised name; "default" exactly when none occurs |
| Grenke.MatchesGrenkeModel | frontend/src/lib/pdfGenerator.ts:89-106 | true exactly when the normalised name is non-empty, the key names a model and the name contains it |
| Grenke.KeyMatchesItsName | frontend/src/lib/pdfGenerator.ts:72-106 | a detected model key matches the name it came from; "default" matches nothing |
| OrderPdf.PadNumero | frontend/src/lib/pdfGenerator.ts:143 | at least four digits that read back as the order number |
| OrderPdf.PadNumeroInjective | frontend/src/lib/pdfGenerator.ts:143 | two order numbers get the same padded text exactly when they are equal |
| OrderPdf.HeaderText | frontend/src/lib/pdfGenerator.ts:143 | the heading starts with ORDINE or PREVENTIVO and ends with the padded number, which reads back |
| OrderPdf.EventLine | frontend/src/lib/pdfGenerator.ts:150-156 | the event line appears exactly when the event name is a non-empty string, and shows it |
| OrderPdf.Present | frontend/src/lib/pdfGenerator.ts:198 | keeps only the non-empty parts; nothing is left exactly when no part is present |
| OrderPdf.JoinParts | frontend/src/lib/pdfGenerator.ts:198 | joining non-empty parts is empty exactly when there are none |
| OrderPdf.ClientLines | frontend/src/lib/pdfGenerator.ts:179-218 | no client, no lines; otherwise the company name comes first |
| OrderPdf.ClientLinesShape | frontend/src/lib/pdfGenerator.ts:179-218 | one line for the name plus one per present field (contact, address, location, phone, VAT, tax code), none of them empty |
| OrderPdf.Banner | frontend/src/lib/pdfGenerator.ts:223-236 | the banner appears exactly when the order has display units and a sale mode, and names direct sale or Grenke leasing |
| OrderPdf.Detect | frontend/src/lib/pdfGenerator.ts:242-247 | the first line whose product name yields a model other than "default", or none when there is no such line |
| OrderPdf.DisplayName | frontend/src/lib/pdfGenerator.ts:82-87 | the first non-empty product name among the lines; empty exactly when no line has one |
| OrderPdf.FindMatching | frontend/src/lib/pdfGenerator.ts:250-251 | the first line whose product matches the model key, absent exactly when none does |
| OrderPdf.LeasingSummary | frontend/src/lib/pdfGenerator.ts:249-259 | the leasing row's discounted subtotal is price × quantity × (1 − percentage/100); the percentage is the order's, absent counting as 0; the conditions text is the detected model's |
| OrderPdf.LeasingDetected | frontend/src/lib/pdfGenerator.ts:242-257 | with a detected line, the row uses its price and quantity (0 becomes 1), its name and its model's conditions |
| OrderPdf.LeasingUndetected | frontend/src/lib/pdfGenerator.ts:249-257 | with no detected line the key is "default", no line is used, and the row has price 0, quantity 1 and the default conditions |
| OrderPdf.LineRows | frontend/src/lib/pdfGenerator.ts:318-325 | one table row per order line, with its quantity, unit price, subtotal, product name and product code ("" without a product); the unit is the product's non-empty unit, otherwise "pz" |
| OrderPdf.TableFor | frontend/src/lib/pdfGenerator.ts:238-325 | the leasing table exactly for a Grenke quote (a quote with display units sold by leasing); otherwise one row per line |
| OrderPdf.Totals | frontend/src/lib/pdfGenerator.ts:364-387 | a discount line exactly for a positive discount value, naming the percentage exactly when it is positive; the total 6 or 12 below; notes, when present, 8 below the total |
| OrderPdf.FileName | frontend/src/lib/pdfGenerator.ts:433-437 | the file name ends in ".pdf" |
| OrderPdf.FileNameNumber | frontend/src/lib/pdfGenerator.ts:433-437 | the name starts with the document prefix and "_", followed by the padded number, which reads back |
| OrderPdf.FileNameShape | frontend/src/lib/pdfGenerator.ts:433-437 | prefix, padded number, client name (or "Cliente"), copies suffix and ".pdf", in that order |
| OrderPdf.CopiesShape | frontend/src/lib/pdfGenerator.ts:435 | more than one copy adds "_copie" and the count before ".pdf" |
| OrderPdf.DistinctMiddles | frontend/src/lib/pdfGenerator.ts:435-436 | different middles between the same stem and suffix give different names |
| OrderPdf.FileNameCopies | frontend/src/lib/pdfGenerator.ts:433-437 | one copy or fewer gives the single-copy name; different counts above one give different names |
| OrderPdf.GenerateDocument | frontend/src/lib/pdfGenerator.ts:439-459 | as many identical pages as copies, one blank page for fewer than one, saved under the document's file name |
| Copies.RenderCopies | frontend/src/lib/pdfGenerator.ts:440-445 | N ≥ 1 copies give N pages each with the content; fewer give the single blank page the new document starts with |
| BlankForm.VoceOf | frontend/src/lib/pdfModuliVuoti.ts:61-65 | an entry keeps code and name; a missing list price becomes 0 |
| BlankForm.Filtra | frontend/src/lib/pdfModuliVuoti.ts:44-65 | the entries are empty exactly when no product is in one of the family's categories |
| BlankForm.FiltraMembers | frontend/src/lib/pdfModuliVuoti.ts:56-65 | an entry is listed exactly when it comes from a product in one of the family's categories |
| BlankForm.FiltraConcat | frontend/src/lib/pdfModuliVuoti.ts:56-65 | filtering distributes over concatenation |
| BlankForm.TableRows | frontend/src/lib/pdfModuliVuoti.ts:176-192 | the entries in order, then empty rows up to 18; never fewer than 18 rows |
| BlankForm.EventoField | frontend/src/lib/pdfModuliVuoti.ts:114-120 | the event is printed exactly when a non-empty one is given; otherwise a blank line is drawn |
| BlankForm.Intestazione | frontend/src/lib/pdfModuliVuoti.ts:96 | "MODULO ORDINE " followed by the upper-cased family |
| BlankForm.ModuloFileName | frontend/src/lib/pdfModuliVuoti.ts:299 | "Modulo_" … "copie.pdf" |
| BlankForm.ModuloFileNameReadsBack | frontend/src/lib/pdfModuliVuoti.ts:299 | the name is "Modulo_", the family, "_", the count and "copie.pdf": the family's initial sits at position 7 and the digits between the stem and the suffix read back as the count, after a "-" when it is negative |
| BlankForm.ModuloFileNameInjective | frontend/src/lib/pdfModuliVuoti.ts:299 | two different families or two different counts never give the same file name |
| Strings.IntToStringReads | frontend/src/lib/pdfModuliVuoti.ts:299 | a number written into a template string reads back: its digits give the number, after a "-" when it is negative |
| Strings.IntToStringInjective | frontend/src/lib/pdfModuliVuoti.ts:299 | different numbers are written differently |
| BlankForm.GenerateModuloVuoto | frontend/src/lib/pdfModuliVuoti.ts:26-300 | every copy is the same page: the header, the event field and the padded table of filtered entries; one blank page for fewer than one copy; saved under the form's file name |
| PrintModals.Decrement | frontend/src/components/StampaOrdineModal.tsx:87 | never below 1; within 1..20 it stays within; above 1 it subtracts one |
| PrintModals.Increment | frontend/src/components/StampaOrdineModal.tsx:102 | never above 20; within 1..20 it stays within; below 20 it adds one |
| PrintModals.Typed | frontend/src/components/StampaOrdineModal.tsx:98 | always in 1..20: a value in range is kept, one above becomes 20, an unparsed or low one becomes 1 |
| PrintModals.StepsInverse | frontend/src/components/ModuloVuotoModal.tsx:93-108 | + then − (and − then +) returns to the start away from the bounds |
| PrintModals.CounterStaysInRange | frontend/src/components/ModuloVuotoModal.tsx:93-108 | any sequence of clicks and typing keeps the counter in 1..20 |
| PrintModals.OrdineHeader | frontend/src/components/StampaOrdineModal.tsx:49 | "#", the padded number (which reads back), a space, and the client part exactly when a client name is present |
| PrintModals.StampaOrdine | frontend/src/components/StampaOrdineModal.tsx:23-30 | prints the chosen document type with the chosen number of copies, under its file name; a drawn page carries the Grenke leasing table exactly for a leasing quote with display units, so never on an order |
| PrintModals.StampaModulo | frontend/src/components/ModuloVuotoModal.tsx:39-42 | no request while products load; otherwise exactly the chosen family, copies, fetched products and current event |
| PrintModals.PreviewTableAsWritten | frontend/src/components/ModuloVuotoModal.tsx:130-134 | the preview announces empty rows exactly when no product was fetched at all |
| PrintModals.PreviewMiscounts | frontend/src/components/ModuloVuotoModal.tsx:133 | one fetched product of another family: the preview promises a 1-product table, but the form lists nothing |
| PrintModals.PreviewTable | frontend/src/components/ModuloVuotoModal.tsx:130-134 | shows the loading text while loading |
| PrintModals.PreviewMatchesForm | frontend/src/components/ModuloVuotoModal.tsx:133 | the corrected preview announces empty rows exactly when the form lists no entry, and otherwise the number of entries, which reads back |
| CsvImport.NonBlank | frontend/src/components/ImportCSV.tsx:45 | keeps only lines that are not blank |
| CsvImport.NonBlankMembers | frontend/src/components/ImportCSV.tsx:45 | a line survives exactly when it is in the file and not blank |
| CsvImport.Separator | frontend/src/components/ImportCSV.tsx:53-56 | ";" exactly when the header has at least as many semicolons as commas, otherwise "," |
| CsvImport.Clean | frontend/src/components/ImportCSV.tsx:59 | no quote characters are left, and the result is no longer than the trimmed cell |
| CsvImport.CleanMembers | frontend/src/components/ImportCSV.tsx:59 | a character survives exactly when it is in the trimmed cell and is not a quote; a quote-free trimmed cell is unchanged |
| CsvImport.Fields | frontend/src/components/ImportCSV.tsx:66 | one more cell than separators, each the cleaned piece |
| CsvImport.BuildRow | frontend/src/components/ImportCSV.tsx:73-76 | the row's keys are exactly the header names |
| CsvImport.BuildRowLastWins | frontend/src/components/ImportCSV.tsx:74-76 | a repeated header name takes the value of its last column |
| CsvImport.ColumnError | frontend/src/components/ImportCSV.tsx:80-89 | at most one error per column, and none exactly when the column's rule holds |
| CsvImport.ColumnErrors | frontend/src/components/ImportCSV.tsx:80-89 | no error exactly when every column's rule holds |
| CsvImport.CheckLine | frontend/src/components/ImportCSV.tsx:65-94 | a wrong cell count gives only the column-count error; a row is accepted exactly when it has no error, and an accepted row has the right cell count and passes every column rule |
| CsvImport.Checks | frontend/src/components/ImportCSV.tsx:65-94 | one verdict per data line; data line k is checked and reported as line k + 2, counted from 1 among the non-blank lines with the header first |
| CsvImport.Accepted | frontend/src/components/ImportCSV.tsx:91-93 | the positions of exactly the accepted lines, in increasing order |
| CsvImport.RowsAreAccepted | frontend/src/components/ImportCSV.tsx:91-96 | the imported rows are the accepted lines' rows, in file order |
| CsvImport.ErrorsIffRejected | frontend/src/components/ImportCSV.tsx:96-97 | no error message exactly when every line is accepted |
| CsvImport.ParseText | frontend/src/components/ImportCSV.tsx:42-98 | fewer than two non-blank lines is the empty-file case; otherwise at most one row per data line, all of them exactly when there is no error, and header names without quotes |
| CsvImport.HandleFileSelect | frontend/src/components/ImportCSV.tsx:28-37 | a non-.csv name only sets the format error; otherwise the file is kept and the read error, the empty-file error or the parse result replaces data and errors |
| CsvImport.HandleImport | frontend/src/components/ImportCSV.tsx:115-125 | importing ends and the data stays; a result is stored, or a failure adds the import error |
| CsvImport.Button | frontend/src/components/ImportCSV.tsx:321-328 | hidden exactly when there is no data or a result is shown; enabled exactly when, in addition, no import is running and there are no errors |
| CsvImport.ErrorList | frontend/src/components/ImportCSV.tsx:234-239 | the first ten errors, plus a "... e altri N errori" line exactly when there are more |
| CsvImport.ErrorListAccounts | frontend/src/components/ImportCSV.tsx:234-239 | the shown errors and the count in the overflow line add up to all the errors |
| ClienteForm.Set | frontend/src/components/ClienteForm.tsx:56 | the changed field takes the value; every other field is unchanged |
| ClienteForm.FromCliente | frontend/src/components/ClienteForm.tsx:35-51 | the company name is copied; each of the eleven optional fields becomes its stored value when non-empty, otherwise "" |
| ClienteForm.FromClienteEmptyIff | frontend/src/components/ClienteForm.tsx:39-49 | a loaded optional field is empty exactly when the stored value is missing or empty, and every stored value is loaded unchanged |
| ClienteForm.FirstIndex | frontend/src/components/ClienteForm.tsx:69 | the position of the first occurrence of the character, or the length when it does not occur |
| ClienteForm.EmailIff | frontend/src/components/ClienteForm.tsx:69 | the e-mail pattern holds exactly when the address has a non-empty run before "@" and a dot-separated domain with non-empty parts, all without whitespace or a further "@" |
| ClienteForm.Validate | frontend/src/components/ClienteForm.tsx:62-83 | one error per failing rule, each with its fixed message: a blank company name, or a given e-mail, VAT number or tax code that is invalid |
| ClienteForm.ValidIff | frontend/src/components/ClienteForm.tsx:62-83 | the form is valid exactly when the four rules hold |
| ClienteForm.OtherFieldsIrrelevant | frontend/src/components/ClienteForm.tsx:62-83 | changing an unchecked field never changes validation |
| ClienteForm.SameCheckedFields | frontend/src/components/ClienteForm.tsx:62-83 | forms that agree on the four checked fields get the same errors |
| ClienteForm.HandleChange | frontend/src/components/ClienteForm.tsx:54-60 | sets the field; clears its error if it had one; leaves every other error alone |
| ClienteForm.Submit | frontend/src/components/ClienteForm.tsx:85-99 | an invalid form shows its errors and saves nothing; a valid one is sent as it is, and the dialog closes exactly when the save succeeds |
| ClienteForm.BlankNameOnlyError | frontend/src/components/ClienteForm.tsx:65-67 | a blank name with the optional fields empty gives only the required-field error |
| ProdottoForm.FromProdotto | frontend/src/components/ProdottoForm.tsx:34-46 | the fields are copied; missing text becomes ""; an empty unit becomes "pz" |
| ProdottoForm.SetText | frontend/src/components/ProdottoForm.tsx:59-60 | a text field takes the typed value; every other text field, the price and the availability keep theirs |
| ProdottoForm.HandleChange | frontend/src/components/ProdottoForm.tsx:49-65 | a checkbox sets availability; the price takes the parsed number or 0; a text field takes the value, leaving every other field, price and availability as they were; the changed field's error is cleared and the others are kept |
| ProdottoForm.GenerateCodice | frontend/src/components/ProdottoForm.tsx:67-83 | a blank name only sets the "name first" error; otherwise the generator is asked with the name, and a returned code replaces the code field and clears its error |
| ProdottoForm.Validate | frontend/src/components/ProdottoForm.tsx:85-110 | errors for a blank name or code and no category; a price outside [0, 999999.99] gets the too-low or the too-high message |
| ProdottoForm.ValidIff | frontend/src/components/ProdottoForm.tsx:85-110 | the form is valid exactly when name and code are not blank, a category is chosen and the price is within the limits |
| ProdottoForm.UnparsedPriceValid | frontend/src/components/ProdottoForm.tsx:56 | an unparseable price becomes 0, which passes the price check |
| ProdottoForm.Submit | frontend/src/components/ProdottoForm.tsx:112-126 | an invalid form shows its errors; a valid one is sent as it is and closes exactly when the save succeeds |
| ProdottoForm.Parents | frontend/src/components/ProdottoForm.tsx:128 | only top-level categories |
| ProdottoForm.Children | frontend/src/components/ProdottoForm.tsx:129 | only the children of that parent |
| ProdottoForm.GroupedOnce | frontend/src/components/ProdottoForm.tsx:128-129 | a category with a parent is listed once, under its parent only; a category without a parent is listed only at the top |
| OrdiniTable.MenuOptions | frontend/src/components/OrdiniTable.tsx:166-199 | no options exactly for a final state; otherwise two options, the last "annullato", each further along the lifecycle |
| OrdiniTable.MenuTargets | frontend/src/components/OrdiniTable.tsx:166-199 | a draft can go to confermato or annullato, a confirmed order to evaso or annullato; no option returns to bozza or repeats the state |
| OrdiniTable.MenuPathBound | frontend/src/components/OrdiniTable.tsx:166-199 | any chain of menu choices has at most three states, never returns to bozza and never repeats a state |
| OrdiniTable.RankGrows | frontend/src/components/OrdiniTable.tsx:166-199 | each menu choice moves at least one step further along the lifecycle |
| OrdiniTable.RankIncreases | frontend/src/components/OrdiniTable.tsx:166-199 | later states in a chain are strictly further along |
| OrdiniTable.Toggle | frontend/src/components/OrdiniTable.tsx:157 | clicking a row's state opens its menu exactly when that menu was not open, and otherwise closes it |
| OrdiniTable.Delete | frontend/src/components/OrdiniTable.tsx:27-35 | a click deletes exactly when that row was armed and then disarms it; otherwise it arms that row |
| OrdiniTable.Step | frontend/src/components/OrdiniTable.tsx:24-35 | a badge click never deletes, opens that row's menu exactly when it was not open and otherwise closes every menu; a state change happens exactly when the row's menu is shown and the target is offered, and it closes the menu, while a refused pick changes nothing; a delete click leaves the menu alone, deletes exactly when that row was armed and then disarms, and otherwise arms that row; the timer only disarms |
| OrdiniTable.TwoClicksDelete | frontend/src/components/OrdiniTable.tsx:27-35 | on an unarmed row the first click does nothing and the second deletes and disarms |
| OrdiniTable.Run | frontend/src/components/OrdiniTable.tsx:24-35 | one effect per event |
| OrdiniTable.DeletionsNeedTwoClicks | frontend/src/components/OrdiniTable.tsx:27-35 | from an unarmed table, every deletion costs two delete clicks, and a row left armed costs one more |
| OrdiniTable.NumeroCell | frontend/src/components/OrdiniTable.tsx:99 | "#" and at least four digits that read back as the order number |
| OrdiniTable.StatoLabel | frontend/src/components/OrdiniTable.tsx:161 | the state's name with its first letter upper-cased and every later letter unchanged, so it lower-cases back to the name |
| OrdiniTable.BadgesOf | frontend/src/components/OrdiniTable.tsx:125-140 | a display-unit badge exactly for orders with display units, showing the sale mode exactly when one is set, as "Diretto" for a direct sale and "Leasing" otherwise; an "other products" badge exactly for orders with other products and no display units; never both |
| OrdiniTable.ScontoNote | frontend/src/components/OrdiniTable.tsx:147-151 | as intended: the percentage note appears exactly for a positive percentage, and shows it |
| OrdiniTable.ScontoCellAsWritten | frontend/src/components/OrdiniTable.tsx:147-151 | as written: a stored 0 renders a bare "0"; a positive percentage renders its note; a missing or negative one renders nothing |
| OrdiniTable.ScontoCellDiffersOnlyAtZero | frontend/src/components/OrdiniTable.tsx:147-151 | the cell as written and the intended note differ exactly when the stored percentage is 0 |
| OrdiniTable.ZeroPercentShowsStrayZero | frontend/src/components/OrdiniTable.tsx:147 | an order stored with a 0 percentage shows a stray "0" where no note is intended |
| OrdiniTable.EventoCell | frontend/src/components/OrdiniTable.tsx:106 | "N/A" exactly when the event name is missing, empty or itself "N/A"; otherwise the name |
| OrdiniTable.ClienteName | frontend/src/components/OrdiniTable.tsx:112 | "N/A" exactly when the client or its name is missing or empty, or the name is "N/A"; otherwise the name |
| OrdiniTable.CittaOf | frontend/src/components/OrdiniTable.tsx:113-116 | the city line appears exactly when the client has a non-empty city |
| OrdiniTable.RowView | frontend/src/components/OrdiniTable.tsx:99-228 | a row shows these cells, with the state cell showing the capitalised state name; its menu is listed exactly when shown, and then holds exactly the transitions offered for the order's state; edit is offered exactly for drafts (view otherwise); the delete button is armed exactly for the armed row |
| OrdiniTable.SumConcat | frontend/src/components/OrdiniTable.tsx:245 | the footer sum of two lists laid end to end is the sum of their sums |
| OrdiniTable.SumBounds | frontend/src/components/OrdiniTable.tsx:245 | with non-negative totals, the footer sum is at least any one order's total |
| OrdiniTable.SumNonNegative | frontend/src/components/OrdiniTable.tsx:245 | with non-negative totals, the footer sum is non-negative |
| OrdiniTable.View | frontend/src/components/OrdiniTable.tsx:50-58 | the empty notice exactly for no orders; otherwise one row view per order and a footer with the count ("ordine" exactly for one) and the sum of totals |
| OrdiniPage.Filtrati | frontend/src/pages/Ordini.tsx:89-102 | no more orders than given, each passing the search, state and event filters |
| OrdiniPage.Positions | frontend/src/pages/Ordini.tsx:89-102 | the shown orders are a subsequence of the list, taken in order, and are exactly the orders that pass |
| OrdiniPage.FiltratiMembers | frontend/src/pages/Ordini.tsx:89-102 | an order is shown exactly when it is in the list and passes all three filters |
| OrdiniPage.NoFilterShowsAll | frontend/src/pages/Ordini.tsx:91-99 | a blank search with both selects on "tutti" shows the whole list |
| OrdiniPage.SearchFindsNumber | frontend/src/pages/Ordini.tsx:92 | searching an order's number finds it |
| OrdiniPage.StatoFilterExact | frontend/src/pages/Ordini.tsx:96 | filtering by a state shows only orders in that state |
| OrdiniPage.EventNames | frontend/src/pages/Ordini.tsx:180-188 | the listed event names are never empty |
| OrdiniPage.EventNamesMembers | frontend/src/pages/Ordini.tsx:180-188 | a name is listed exactly when it is non-empty and some order has it as its event |
| OrdiniPage.IndexOf | frontend/src/pages/Ordini.tsx:180-188 | the first position of a name, or the length when it is absent |
| OrdiniPage.IndexOfAppend | frontend/src/pages/Ordini.tsx:180-188 | appending a name keeps earlier first positions and gives a new name the last one |
| OrdiniPage.Distinct | frontend/src/pages/Ordini.tsx:180-188 | no name twice, and the same names as the input |
| OrdiniPage.DistinctFirstAppearance | frontend/src/pages/Ordini.tsx:180-188 | the distinct names keep the order of their first appearance |
| OrdiniPage.EventOptions | frontend/src/pages/Ordini.tsx:180-188 | the event options have no duplicate and no empty name |
| OrdiniPage.EventOptionsIff | frontend/src/pages/Ordini.tsx:180-188 | an option is offered exactly when some order has that non-empty event, in order of first appearance |
| OrdiniPage.CountersPartition | frontend/src/pages/Ordini.tsx:204-228 | the four state counters add up to the number of orders |
| OrdiniPage.CountersIgnoreFilters | frontend/src/pages/Ordini.tsx:204-228 | each counter over the whole list is at least the count over the filtered list |
| OrdiniPage.SaveDispatch | frontend/src/pages/Ordini.tsx:55-67 | editing calls the update, with the lines always passed; otherwise the create |
| OrdiniPage.SaveNotice | frontend/src/pages/Ordini.tsx:55-67 | a notice exactly after a success: "updated" when editing, "created" otherwise |
| OrdiniPage.EditReplacesLines | frontend/src/pages/Ordini.tsx:55-67 | a successful edit updates the row, deletes the old lines, inserts the new ones, patches the totals and reloads |
| OrdiniPage.EffectNotice | frontend/src/pages/Ordini.tsx:69-81 | a notice exactly after a successful table action: the deletion notice, or "Stato ordine aggiornato a: " and the new state |
| SortedCache.StrLeTotal | frontend/src/hooks/useProdotti.ts:77 | any two names are comparable |
| SortedCache.StrLeTrans | frontend/src/hooks/useProdotti.ts:77 | the order is transitive |
| SortedCache.StrLeAntisymmetric | frontend/src/hooks/useProdotti.ts:77 | names ordered both ways are equal |
| SortedCache.Insert | frontend/src/hooks/useProdotti.ts:76-78 | one more item, with the same items plus the new one |
| SortedCache.InsertSorted | frontend/src/hooks/useProdotti.ts:76-78 | inserting into a sorted list keeps it sorted |
| SortedCache.SortBy | frontend/src/hooks/useProdotti.ts:76-78 | a permutation of the input |
| SortedCache.SortBySorted | frontend/src/hooks/useProdotti.ts:76-78 | the result is sorted by the key |
| SortedCache.Fail | frontend/src/hooks/useProdotti.ts:80-85 | a failed call keeps the list, records the message (or the operation's fixed fallback) and returns it |
| SortedCache.FetchList | frontend/src/hooks/useProdotti.ts:31-51 | a fetch replaces the list and clears the error; a failed fetch keeps the list and records the message |
| SortedCache.CreateLocal | frontend/src/hooks/useClienti.ts:36-56 | a created item joins the list (same items plus it) and is returned, leaving the error as it was; a failure is a failed call |
| SortedCache.ReplaceById | frontend/src/hooks/useClienti.ts:69-72 | items with the id are replaced by the saved one; the rest stay in place |
| SortedCache.UpdateLocal | frontend/src/hooks/useProdotti.ts:88-110 | a saved item replaces those with its id, the list re-sorted, and is returned; a failure is a failed call |
| SortedCache.DeleteRequest | frontend/src/hooks/useProdotti.ts:114-121 | deleting a product marks it unavailable; deleting a client marks it inactive; nothing is removed |
| SortedCache.DeleteLocal | frontend/src/hooks/useClienti.ts:82-99 | on success the list keeps exactly the items with another id; a failure is a failed call |
| SortedCache.CreateKeepsSorted | frontend/src/hooks/useProdotti.ts:76-78 | after a create the list is sorted and holds the new item and every old one |
| SortedCache.UpdateKeepsOthers | frontend/src/hooks/useClienti.ts:69-72 | after an update the list is sorted, holds the saved item when its id was listed, and keeps every item with another id |
| SortedCache.UpdateUnknownId | frontend/src/hooks/useProdotti.ts:99-102 | saving an item whose id is not listed leaves the list's contents unchanged |
| SortedCache.DeleteKeepsOrder | frontend/src/hooks/useClienti.ts:84-91 | the remaining items keep their relative order |
| SortedCache.GenerateCodiceProdotto | frontend/src/hooks/useProdotti.ts:53-64 | the backend's code when it returns a non-empty one; "PROD-001" when it returns none; on failure "PROD-" and three digits that read back as the random draw |
| Autocomplete.Visible | frontend/src/components/ProdottoAutocomplete.tsx:108-110 | the first 50 entries, with the full count shown exactly when there are more |
| Autocomplete.TrimOccurs | frontend/src/components/ClienteAutocomplete.tsx:49-53 | the trimmed, lower-cased text occurs in the lower-cased text |
| Autocomplete.FilteredProdotti | frontend/src/components/ProdottoAutocomplete.tsx:24-29 | a blank search lists every product; otherwise only products whose name or code contains the search |
| Autocomplete.FilteredProdottiMembers | frontend/src/components/ProdottoAutocomplete.tsx:24-29 | a product is listed exactly when the search is blank or it matches |
| Autocomplete.Selected | frontend/src/components/ProdottoAutocomplete.tsx:67-72 | choosing a product shows "nome (codice)", closes the list and resets the highlight |
| Autocomplete.PStep | frontend/src/components/ProdottoAutocomplete.tsx:43-92 | keys do nothing while closed; the arrows move within the list; Enter picks exactly when the highlight is on an entry; a pick is a listed product; typing reopens at the top; clear empties and closes |
| Autocomplete.StepKeepsHighlight | frontend/src/components/ProdottoAutocomplete.tsx:43-65 | every event keeps the highlight on the list, or at its start |
| Autocomplete.RunKeepsHighlight | frontend/src/components/ProdottoAutocomplete.tsx:43-92 | any sequence of events keeps the highlight on the list, or at its start |
| Autocomplete.ArrowsStayOnList | frontend/src/components/ProdottoAutocomplete.tsx:47-59 | from an entry, either arrow lands on an entry |
| Autocomplete.SelectionHidesItself | frontend/src/components/ProdottoAutocomplete.tsx:24-29 | the text shown after a choice does not match the chosen product itself, so re-filtering with it never lists that product |
| Autocomplete.FilteredClienti | frontend/src/components/ClienteAutocomplete.tsx:49-53 | a blank query lists every client; otherwise only those whose lower-cased name contains the trimmed, lower-cased query |
| Autocomplete.FilteredClientiMembers | frontend/src/components/ClienteAutocomplete.tsx:49-53 | a client is listed exactly when it is given and matches |
| Autocomplete.CStep | frontend/src/components/ClienteAutocomplete.tsx:55-107 | typing opens the list and clears a selected client exactly when one is selected; the clear button does the same and closes; choosing shows the name, closes and reports the client |
| Autocomplete.Find | frontend/src/components/ClienteAutocomplete.tsx:31-35 | the first listed client with that id (none before it has the id), absent exactly when none has it |
| Autocomplete.SyncSelection | frontend/src/components/ClienteAutocomplete.tsx:31-35 | with a selection, the field shows the selected client's name, or "" when it is not listed; without one nothing changes |
| Autocomplete.ChosenClientStaysListed | frontend/src/components/ClienteAutocomplete.tsx:97-107 | after a choice, the chosen client still matches the query it left |

## Left out

- The backend client (Supabase) is not run. Each query and write becomes a parameter carrying its outcome, and the model fixes only the order of the writes.
- `fetchOrdini` in frontend/src/hooks/useOrdini.ts is modelled only as the `Refetch` step. It catches its own errors, so a failed reload still counts as a successful save.
- PDF drawing is not modelled: coordinates beyond the offsets of the totals block, fonts, colours, the logo image, text splitting and the company footer. A page is modelled as the data laid out on it.
- Date formatting, the generation timestamp, `formatCurrency`, `toFixed(2)` and `Intl` number formatting are not modelled. These produce presentation text only.
- IEEE floating point is not modelled: money is exact `real`, and NaN from `parseFloat` is folded into the "absent" case.
- The parsing of typed numbers (`parseInt`, `parseFloat`) is not modelled. The parsed value enters as an `Option`.
- `localeCompare` is replaced by code-point lexicographic order. Locale collation is not available.
- Case mapping is ASCII only: `toLowerCase`/`toUpperCase` of non-ASCII letters is not modelled.
- The file reader and the dropped-file event are not modelled. The file's text, or its read failure, is a parameter.
- React effects, timers and the document click listener become explicit events:
  - the 3-second delete timer is `TimerFired`;
  - a click outside an autocomplete is `ClickOutside`/`COutside`;
  - the selection sync runs when called.
- The 3-second delete timer is not cancelled when a row is armed again, so an earlier timer can disarm a later arming. The model allows this, because `TimerFired` may arrive at any point.
- frontend/src/lib/eventoCorrente.ts is not part of this model. The current event enters as a parameter.
- Dashboard, Layout, App routing, the clients and products pages, `ClientiTable`, `ProdottiTable` and `useDashboardStats` are not part of this model. Those table handlers repeat the modelled two-click delete.
- `searchProdotti`, `searchClienti` and `fetchCategorie` are not part of this model. They are single backend reads with no logic of their own.
- The order form's edit-mode loading (frontend/src/components/OrdineForm.tsx:102-135) is not modelled. The form contents enter `OrdineForm.BuildOrdine` as a parameter. The sync effect is `OrdineForm.SyncEffect`, applied when called.
- `ha_espositori` is never recomputed from the cart. The save spreads the form data as it was loaded, and only the sale mode follows the cart. The model passes the flag through.
- After a save both discount fields persist: the percentage from the insert and the computed value from the totals patch (`OrdiniHook.BothDiscountFieldsPersisted`).
- Before the sync effect has run, a zero percentage gives no discount in the form but falls back to the absolute value in the save (`OrdiniHook.SavedTotalsMatchForm`). The effect clears such a percentage, so a synced form saves exactly what it shows (`OrdiniHook.SavedTotalsMatchSyncedForm`).
- Deleting an order deletes only the order row. Its lines are not touched (`OrdiniHook.DeleteOrdineRun`).
- Grenke name normalisation is not idempotent (`Grenke.NormalizeNotIdempotent`).
- frontend/src/pages/Ordini.tsx uses members that the `useOrdini` shown does not return. The model treats the page's calls as the hook's create, update and delete.
- The product search tests `search.trim()` for blankness but matches the untrimmed text. The client search trims and then lower-cases. Both are modelled as written.
- The orders page search matches the order number against the untrimmed query (`OrdiniPage.MatchSearch`).
- A successful create, update or delete in the caches leaves an earlier error text in place, while a fetch clears it (`SortedCache.CreateLocal`).
- In the product autocomplete, ArrowDown on an empty list sets the highlight to −1. This is harmless, and `Autocomplete.StepKeepsHighlight` allows it.
- Grenke.Normalize: the contract states only the character class of the result. The exact result is pinned by `Grenke.NormalizeExamples`, `Grenke.NormalizeFixpoint` and `Grenke.NormalizeNotIdempotent`.
- OrderPdf.FileName: the contract states only the extension. The full shape is in `OrderPdf.FileNameShape`, `OrderPdf.FileNameNumber` and `OrderPdf.FileNameCopies`.
- SortedCache.SortBy: it sorts by code-point order rather than `localeCompare`, and the relative order of equal keys is not stated.
- PrintModals.PreviewTable: the contract states only the loading case. The counting behaviour is in `PrintModals.PreviewMatchesForm`.
- JavaScript strings are sequences of UTF-16 code units, while a Dafny `char` is a Unicode scalar value. A character outside the Basic Multilingual Plane counts as two units in JavaScript and one here, so `slice`-based truncation and initials may differ on such characters.
- OrdiniTable.RowView: the row uses the intended discount note (`OrdiniTable.ScontoNote`). The stray "0" of the source is in `OrdiniTable.ScontoCellAsWritten` (see Findings).
- OrdiniTable.Run: the contract states only the number of effects. What each step does is in `OrdiniTable.Step` and `OrdiniTable.DeletionsNeedTwoClicks`.

## Findings

| source | as written | input that shows it | evidently intended | confidence | as-written member | corrected member |
|---|---|---|---|---|---|---|
| frontend/src/components/ModuloVuotoModal.tsx:133 | the preview counts every fetched product (`prodotti.length`) | one available product in category "Ricambi" with the "Espositori" form selected: the preview promises "Tabella con 1 prodotti", but the form lists none of it and prints 18 empty rows | the preview counts the products the chosen form will list | not executed | PrintModals.PreviewMiscounts | PrintModals.PreviewMatchesForm |
| frontend/src/components/OrdiniTable.tsx:147 | the note is guarded by `p && p > 0`, and React renders the guard's first falsy operand, so a 0 is rendered as text | an order row with `sconto_percentuale` 0 shows a bare "0" under its total; the order form never saves 0 (it clears a non-positive percentage), so the row has to come from another writer | nothing is shown for a zero percentage | not executed | OrdiniTable.ZeroPercentShowsStrayZero | OrdiniTable.ScontoNote |
