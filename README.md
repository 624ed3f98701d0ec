# manipuladorXML — a verified model of the NF-e batch renamer and editor

`manipuladorXML.py` works on a folder of Brazilian electronic invoice files (NF-e, *Nota
Fiscal eletrônica*) in two passes.

**First pass (`processar_arquivos`): renaming.**
- Every invoice is summarised (number, CFOP, nature of operation, referenced key, remarks,
  access key, issuer CNPJ).
- The invoice is classified against four fixed CFOP tables and renamed, for example
  `123 - Venda.xml`.
- Each cancellation event is renamed `CAN-{n}.xml` after the invoice it cancels.
- A rename never moves a file onto an existing name.

**Second pass (`editar_arquivos`): editing under the company's configuration.**
- Before any file is touched, it builds:
  - `chave_mapping`: each access key to a key re-derived with a new CNPJ and/or year-month and
    a fresh mod-11 check digit;
  - `reference_map`: each invoice to the key of the invoice it references.
- Then, file by file, it rewrites:
  - the issuer, product and tax fields;
  - the CST codes, per CFOP;
  - the item IPI of shipments and returns, set to zero;
  - the `ICMSTot` totals, recomputed with exact decimals rounded half-up to the cent;
  - the emission and receipt dates;
  - the `Id`, the protocol's `chNFe` and `refNFe`.
- It collects a change list and writes the file back, normalised to one line.
- Voiding files (`procInutNFe`) get their CNPJ, year and receipt date rewritten.

**How the model is built.**
- The parsed XML is an abstract record. Groups are ordered lists of `(tag, text)` children,
  searched as `find_element` does: the first match wins.
- The `imposto` subtree is a list of leaves with paths, searched as `find_element_deep` does.
  A leaf's path does not say which occurrence of a repeated group it lies in, and only leaves
  are held (see "## Left out").
- The directory is a set of names.
- The clock and the file system's refusals are parameters.

**Form of each part.**
- The loops of the source are methods with loop invariants, proved equal to specification
  functions:
  - `calcular_dv_chave`;
  - the scanning and renaming loops;
  - the key-map loop;
  - the product and tax loops;
  - the Decimal running sums;
  - the per-file loop.
- The in-place rewriting of one invoice is a class, `InvoiceEditor`, whose methods update its
  state phase by phase.
- The classification chain, the key concatenation and the serialisation `replace`/`re.sub`
  chain are pure functions with lemmas.

**Behaviour modelled as written.**
- The check digit maps `11 - r` in {0, 1, 10, 11} to `'0'`. A remainder of 10 (`dv = 1`) gives
  `'0'`. This departs from the NF-e Manual ("Manual de Orientação do Contribuinte"), whose rule
  writes `'1'` for remainder 10. The model follows the code: a prefix of 42 zeros and a `5` has
  remainder 10 and gets `'0'` (`CheckDigit.RemainderTenGivesZero`).
- Re-keying runs outside the per-file `try`. A key whose prefix the check digit rejects (a CNPJ
  of more than 14 digits) ends the whole edit pass before any file is edited. The phase is a
  `Result` that fails.
- Files that are cancellation events or CT-e documents are skipped by the edit pass. Their keys
  are not rewritten.
- Every invoice or voiding file the edit pass reaches is written back, even with an empty
  change list.
- The IPI zeroing and the CST remapping read the item's CFOP after the product entries have
  been written. The totals are summed over the items as edited.
- A voiding file's CNPJ takes `novo_emitente.get('CNPJ')`. When the configuration has no CNPJ
  that is Python's `None`, modelled as the empty text.

## Model

| member | source | states |
|---|---|---|
| CheckDigit.CalcularDvChave | manipuladorXML.py:58-69 | the right-to-left loop with weights 2..9 cycling returns exactly the check digit of the key, or the length error |
| CheckDigit.CheckDigitRule | manipuladorXML.py:58-69 | fails exactly on inputs that are not 43 digits; otherwise '0' for remainders 0, 1 and 10, else the digit 11 - r in 2..9 |
| CheckDigit.RemainderTenGivesZero | manipuladorXML.py:67-69 | a prefix whose weighted sum leaves remainder 10 gets check digit '0', as the code writes it, not the '1' of the NF-e Manual |
| CheckDigit.WeightStep | manipuladorXML.py:62-66 | one step left moves the weight as `multiplicador` does: up by one, back to 2 after 9 |
| AccessKey.YearMonth | manipuladorXML.py:268 | `%y%m` is four digits reading back as the year within its century and the month |
| AccessKey.DeriveKey | manipuladorXML.py:267-270 | derivation succeeds exactly when the check digit accepts the 43-character prefix |
| AccessKey.DeriveKeyValid | manipuladorXML.py:269-270 | every derived key is a valid 44-digit access key: its prefix followed by that prefix's check digit |
| AccessKey.DeriveKeyLayout | manipuladorXML.py:264-270 | for a digit key, a CNPJ of at most 14 digits and a four-digit year-month, the new key keeps characters 0-1 and 20-42, holds the year-month at 2-5 and the zero-padded CNPJ at 6-19, and ends in the check digit |
| AccessKey.DeriveKeyUnchanged | manipuladorXML.py:266-270 | re-deriving a valid key with its own CNPJ and no new date gives the same key |
| AccessKey.DeriveKeyLongCnpjFails | manipuladorXML.py:269-270 | a CNPJ of more than 14 digits makes the prefix too long, so the check digit raises |
| Cfop.TablesDisjoint | manipuladorXML.py:15-18 | no CFOP is in two of the sales, devolution, return and shipment tables |
| Documents.Find | manipuladorXML.py:28-34 | the index found is the first child with the tag; no tag means no child has it |
| Documents.SetText | manipuladorXML.py:328-330 | writing the first child with a tag: that tag reads the new text, every other tag reads as before, the shape is kept, and a missing tag changes nothing |
| Documents.FindLeaf | manipuladorXML.py:48-54 | the leaf found is the first one, in document order, whose path is below the group and ends in the searched path |
| Documents.SetLeafText | manipuladorXML.py:349-351 | writing the first matching leaf: it reads the new text, only matching leaves change, and with no match nothing changes |
| Documents.KeyOfId | manipuladorXML.py:319 | `Id[3:]`: the characters after the first three, empty for a short `Id` |
| Changes.Note | manipuladorXML.py:342-343 | a message is appended only when not yet listed; the list keeps its prefix and other messages keep their counts |
| FileInfo.GetXmlInfo | manipuladorXML.py:99-134 | a summary exists exactly for a parsed non-event file with `infNFe`, `ide`, `emit` and a non-empty key after "NFe", and carries the file's name and that key |
| FileInfo.GetEventInfo | manipuladorXML.py:138-157 | a cancellation exists exactly for a parsed event file of type 110111 with a cancelled key, and carries that key |
| FileInfo.InfoOrEvent | manipuladorXML.py:104-105 | no file is both an invoice summary and a cancellation event |
| FileInfo.FirstCfop | manipuladorXML.py:118 | the CFOP read is that of the first item, in document order, that has one; none is read only when no item has one |
| FileInfo.RefNumber | manipuladorXML.py:262 | `ref[25:34].lstrip('0')` has at most 9 characters and no leading zero |
| FileInfo.RefNumberTail | manipuladorXML.py:262 | on a key of at least 34 characters the number read is a tail of characters 25-33 |
| Classification.ClassifyByTable | manipuladorXML.py:180-194 | each category comes from its table: a sale exactly for a sales CFOP, a shipment (plain or symbolic, by whether a reference exists) exactly for a shipment CFOP, and the categories citing another invoice carry its number; codes outside the tables are not renamed |
| Classification.DevolutionNames | manipuladorXML.py:181-186 | a referenced devolution is named by its nature of operation and the remark markers, in the order of the `if` chain |
| Classification.UnreferencedDevolutionUnnamed | manipuladorXML.py:181-191 | a devolution or return without a reference is not renamed |
| Classification.FileNameShape | manipuladorXML.py:183-196 | every name is "{n} - ....xml"; only the unnamed case gives the empty name, meaning no rename |
| Rename.Put | manipuladorXML.py:174 | a dict store: the number maps to the new summary, other numbers are unchanged, and the size grows only for a new number |
| Rename.PutPlace | manipuladorXML.py:174 | a new number is appended at the end; a known number's summary is replaced in its own place; every other summary keeps its position |
| Rename.ScanFolder | manipuladorXML.py:172-176 | the scanning loop computes the scanning function over the files in order |
| Rename.ScanContents | manipuladorXML.py:172-176 | each number keeps the summary of the last file that has it; the events are every cancellation, in folder order |
| Rename.ScanOrder | manipuladorXML.py:172-178 | the summaries stored come in the order of each number's first appearance among the folder's files, the order `nfe_infos.items()` follows |
| Rename.FirstWithNumberMeaning | manipuladorXML.py:172-176 | the first-appearance position is that of a file whose summary has the number, no earlier file has it, and it is the file count only when no file has it |
| Rename.InfoRequests | manipuladorXML.py:178-196 | one rename request per summary, to the name its classification gives |
| Rename.TryRename | manipuladorXML.py:198-208 | one rename attempt changes the folder and the counters exactly as the rename step function |
| Rename.RenameInvoices | manipuladorXML.py:178-208 | the loop over the summaries performs the renames of their requests in order |
| Rename.RenameEvents | manipuladorXML.py:211-224 | the loop over the events performs the renames of their requests in order |
| Rename.ProcessFolder | manipuladorXML.py:160-225 | the whole first pass equals its specification: scan, rename invoices, then rename events |
| Rename.RenameNeverOverwrites | manipuladorXML.py:196-208 | no rename overwrites a file: the folder keeps its count of names; a name disappears only as a request's source and appears only as a target |
| Rename.StepKeepsCount | manipuladorXML.py:198-208 | one rename step keeps the number of names in the folder |
| Rename.InvoiceAtTarget | manipuladorXML.py:206-208 | a target that is the file's own name is neither moved nor counted; a target taken by another file is a counted skip |
| Rename.KeyToNumberContents | manipuladorXML.py:210 | `chave_to_nfe_map` holds exactly the summaries' keys, each with the number of the last summary holding it |
| Rename.EventRequestsExact | manipuladorXML.py:211-215 | an event is renamed `CAN-{n}.xml` exactly when its cancelled key is a known key with a non-empty number n |
| Mappings.InfosFromFiles | manipuladorXML.py:256 | every entry of `all_nfe_infos` is the summary of one of the folder's files |
| Mappings.BuildKeyMaps | manipuladorXML.py:255-270 | the loop computes both maps exactly as the specification function does, or its error |
| Mappings.DeriveNewKey | manipuladorXML.py:265-270 | the code deriving one summary's new key computes the derived key of that summary, or its error |
| Mappings.NoRekeyingNoKeys | manipuladorXML.py:264 | with the issuer and date switches off the phase cannot fail and maps no key |
| Mappings.RekeyingFailsExactly | manipuladorXML.py:264-270 | with re-keying on, the phase fails exactly when some summary's key cannot be derived |
| Mappings.KeyMapContents | manipuladorXML.py:259-270 | with re-keying on, `chave_mapping` has exactly one entry per extracted key, holding the key derived from the last summary with that key |
| Mappings.KeyMapValid | manipuladorXML.py:269-270 | every key `chave_mapping` maps to is a valid access key |
| Mappings.ReferenceMapContents | manipuladorXML.py:259-263 | `reference_map[k]` is set exactly for a summary with a non-empty reference whose number is in the batch, to that number's key; when several summaries with key k refer into the batch, the entry holds the value written for the last of them |
| Mappings.RefLastWins | manipuladorXML.py:259-263 | the last summary with a given key that refers into the batch decides `reference_map` for that key: its entry is that summary's referenced number's key |
| Mappings.NumberToKeyContents | manipuladorXML.py:257 | `nNF_to_key_map` holds exactly the summaries' numbers, each with the key of the last summary with that number |
| Mappings.NewKeyForLayout | manipuladorXML.py:264-270 | for one summary with a valid key, the new key is valid, keeps the state code and the tail, carries the configured or original year-month and the chosen CNPJ |
| Money.RoundHalfUpNearest | manipuladorXML.py:438 | ROUND_HALF_UP to 0.01 is within half a cent, and a tie goes away from zero |
| Money.FormatAmountRoundTrip | manipuladorXML.py:438-442 | the text written for an amount parses back as a Decimal equal to the amount rounded half-up to the cent |
| Dates.ShortYear | manipuladorXML.py:300 | `%y` is two digits reading back as the year within its century |
| Dates.TimestampReadBack | manipuladorXML.py:446 | the timestamp is 25 characters laid out YYYY-MM-DDThh:mm:ss-03:00, each field reading back as the date or time it came from |
| ItemEdit.OverwriteIssuer | manipuladorXML.py:325-331 | the issuer entries keep the shape of `emit` and `enderEmit` and only add to the change list |
| ItemEdit.IssuerOverwritten | manipuladorXML.py:321-331 | every configured tag present in its group (address tags in `enderEmit`, others in `emit`) holds its value; the tags that are not configured keep their text |
| ItemEdit.OverwriteProduct | manipuladorXML.py:338-343 | keeps the tags of `prod`, adds only product messages, and never lists a message twice |
| ItemEdit.ProductOverwritten | manipuladorXML.py:337-343 | every configured product tag present holds its value; the tags that are not configured keep their text |
| ItemEdit.OverwriteProductValue | manipuladorXML.py:338-343 | the product written does not depend on the change list |
| ItemEdit.OverwriteTaxes | manipuladorXML.py:348-353 | keeps the paths of `imposto`, adds only tax messages, and never lists a message twice |
| ItemEdit.TaxesOverwritten | manipuladorXML.py:347-353 | every leaf changed holds the value of a configured path matching it; the last configured path that finds a leaf leaves its value there |
| ItemEdit.OverwriteTaxesValue | manipuladorXML.py:348-353 | the taxes written do not depend on the change list |
| ItemEdit.RemapCst | manipuladorXML.py:355-383 | the CST remapping keeps the paths of `imposto` and only adds to the change list |
| ItemEdit.CstRemapped | manipuladorXML.py:355-383 | with a rule for the item's CFOP, each named group's CST holds the rule's code, the IPI base reads "0.00" when IPI is named, and every other element keeps its text |
| ItemEdit.ZeroIpi | manipuladorXML.py:385-399 | zeroing keeps the paths of `imposto` and only adds to the change list |
| ItemEdit.IpiZeroed | manipuladorXML.py:385-399 | for a shipment or return CFOP, `vIPI` reads "0.00" and `pIPI` reads "0.0000" where present; any other item is left alone |
| ItemEdit.EditItem | manipuladorXML.py:333-399 | one `det` keeps which groups it has and their shapes, and only adds to the change list |
| ItemEdit.EditItemValue | manipuladorXML.py:333-399 | the edited item does not depend on the change list so far |
| ItemEdit.ShipmentItemIpiZero | manipuladorXML.py:385-393 | with zeroing on, an item whose edited CFOP is a shipment or return ends with `vIPI` "0.00", whatever the other steps wrote |
| ItemEdit.OtherItemIpiKept | manipuladorXML.py:355-393 | without tax entries, an item that is not zeroed keeps its `vIPI`: the CST remapping never writes it |
| ItemEdit.EditedItems | manipuladorXML.py:333-399 | the items loop edits each item on its own, in order |
| Totals.ItemSums | manipuladorXML.py:417-430 | one item's amounts parse exactly when its six amounts do, and give its vProd and vIPI |
| Totals.SumItems | manipuladorXML.py:404-430 | the six running Decimal sums equal the sums over the items, or fail as `Decimal` raises |
| Totals.TotalFailsExactly | manipuladorXML.py:411-430 | the sums fail exactly when some item has an amount that does not parse |
| Totals.TotalAdditive | manipuladorXML.py:417-430 | summing two runs of items is adding their sums |
| Totals.ZeroIpiTotal | manipuladorXML.py:427-430 | when every item's IPI counts zero, the IPI sum is zero |
| Totals.ZeroedTextCountsZero | manipuladorXML.py:429-430 | a `vIPI` of "0.00" counts as zero |
| Totals.WriteTotals | manipuladorXML.py:434-443 | the write-back keeps the tags of `ICMSTot` and only adds to the change list |
| Totals.RecomputeTotals | manipuladorXML.py:401-443 | the totals are rewritten exactly when every amount parses |
| Totals.TotalsReadBack | manipuladorXML.py:432-443 | `vIPI` holds the IPI sum and `vNF` holds products - discounts + freight + insurance + other + IPI, each parsing back rounded half-up to the cent; other totals are unchanged |
| InvoiceEdit.OverwriteProductLoop | manipuladorXML.py:338-343 | the loop over `novo_produto.items()` computes the product entries' function |
| InvoiceEdit.OverwriteTaxesLoop | manipuladorXML.py:348-353 | the loop over `novos_impostos.items()` computes the tax entries' function |
| InvoiceEdit.EditDet | manipuladorXML.py:333-399 | the body of the `det` loop computes the item edit |
| InvoiceEdit.InvoiceEditor.constructor | manipuladorXML.py:315-319 | the editor starts on the parsed invoice and protocol |
| InvoiceEdit.InvoiceEditor.EditIssuer | manipuladorXML.py:321-331 | the new state is the issuer phase of the old one |
| InvoiceEdit.InvoiceEditor.EditItems | manipuladorXML.py:333-399 | the new state is the items phase of the old one |
| InvoiceEdit.InvoiceEditor.EditTotals | manipuladorXML.py:401-443 | it succeeds exactly when the totals phase does, and then the new state is its result |
| InvoiceEdit.InvoiceEditor.EditDates | manipuladorXML.py:445-459 | it succeeds exactly when the dates phase does, and then the new state is its result |
| InvoiceEdit.InvoiceEditor.EditKeys | manipuladorXML.py:461-479 | the new state is the key phase of the old one |
| InvoiceEdit.EditNFe | manipuladorXML.py:313-479 | running the editor phase by phase gives the NFe branch's result |
| InvoiceEdit.FrontPhases | manipuladorXML.py:321-399 | after the issuer and item phases the items are edited one by one, and the `Id`, `ide`, totals and protocol are unchanged |
| InvoiceEdit.NFeFailsExactly | manipuladorXML.py:313-479 | the branch raises exactly without `Id`, with an unparsable amount among the edited items when totals are recomputed, or with an unparsable configured date |
| InvoiceEdit.KeysRewritten | manipuladorXML.py:461-479 | a mapped invoice carries its new key in `Id` and `chNFe`, an unmapped one keeps its `Id`; `refNFe` takes the referenced invoice's new key exactly when the switch is on and both maps have the entries |
| InvoiceEdit.DatesPhaseWrites | manipuladorXML.py:445-459 | with a parsed date, the date tags of `ide` and the protocol's `dhRecbto`, where present, hold the new timestamp |
| InvoiceEdit.DatesRewritten | manipuladorXML.py:445-453 | in the edited file, `dhEmi` and `dhSaiEnt`, where present, hold the new timestamp |
| InvoiceEdit.ReceiptRewritten | manipuladorXML.py:454-459 | in the edited file, the protocol's `dhRecbto`, where present, holds the new timestamp |
| InvoiceEdit.KeysPhaseKeeps | manipuladorXML.py:461-479 | the key phase leaves the totals and `ide` fields alone, and writes only `chNFe` in the protocol |
| InvoiceEdit.TotalsPhaseKeeps | manipuladorXML.py:401-443 | the totals phase changes only the totals and the change list |
| InvoiceEdit.DatesPhaseKeeps | manipuladorXML.py:445-459 | the dates phase leaves the `Id` and the totals alone |
| InvoiceEdit.NoIpiLeftCountsZero | manipuladorXML.py:385-393 | with zeroing on, an item without IPI, or of a shipment or return CFOP, counts zero IPI after editing |
| InvoiceEdit.TotalsPhaseZeroIpi | manipuladorXML.py:437-439 | a zero IPI sum is written as "0.00" |
| InvoiceEdit.ZeroedInvoiceIpiTotal | manipuladorXML.py:385-443 | with zeroing on and no IPI left on any item, the recomputed `vIPI` total is "0.00" |
| InvoiceEdit.AllOffChangesNothing | manipuladorXML.py:313-479 | with every switch off and the key unmapped, the branch changes nothing and reports nothing |
| EditPass.VoidingRewritten | manipuladorXML.py:284-308 | a voiding file fails exactly on an unparsable date; each element is rewritten exactly when present and switched on, the log names exactly those, and the values are the CNPJ, the short year and the timestamp |
| EditPass.EditFile | manipuladorXML.py:274-502 | one file's `try`, with the editor, equals the per-file specification |
| EditPass.EditFolder | manipuladorXML.py:230-503 | the whole edit pass, both phases and the counters, equals its specification |
| EditPass.NothingEdited | manipuladorXML.py:482-487 | when no outcome has changes, the edited count is zero |
| EditPass.EditedCountExact | manipuladorXML.py:482-487 | the edited count is the number of files whose change list is non-empty, one each |
| EditPass.ErrorCountExact | manipuladorXML.py:500-502 | the error count is the number of files that raised while editing or writing |
| EditPass.PassAbortsExactly | manipuladorXML.py:255-270 | the pass ends before any file is edited exactly when re-keying is on and some summary's key cannot be derived |
| EditPass.FileUnchanged | manipuladorXML.py:274-498 | with every switch off and nothing mapped, a file is written back as parsed, with no change |
| EditPass.AllOffPassChangesNothing | manipuladorXML.py:230-503 | with every switch off the pass cannot fail, changes no file and counts none as edited |
| EditPass.FileIdValid | manipuladorXML.py:461-464 | an invoice's `Id` is kept or becomes "NFe" and a valid access key, when every mapped key is valid |
| EditPass.RewrittenIdsValid | manipuladorXML.py:461-470 | across the folder, every invoice written keeps its `Id` or carries "NFe" and a valid access key |
| Serialization.SpaceRun | manipuladorXML.py:494 | the run of `\s` characters from a position is maximal: all whitespace, ending at a non-space or at the end |
| Serialization.CollapseKeepsContent | manipuladorXML.py:494 | `re.sub(r'>\s+<', '><')` deletes whitespace only: the other characters stay, in order |
| Serialization.CollapseLeavesNoGaps | manipuladorXML.py:494 | after collapsing, no `>` is followed by whitespace and then `<` |
| Serialization.CollapseIdempotent | manipuladorXML.py:494 | collapsing twice is collapsing once |
| Serialization.NormalizeWithoutDs | manipuladorXML.py:490-495 | on a text with no `ds` namespace declaration and no `ds`-prefixed tag, the written text is exactly the input with `\n`, `\r` and `\t` deleted and its gaps collapsed: the namespace rewrites and the last replacement change nothing |
| Serialization.NormalizeHasNoBreaks | manipuladorXML.py:493 | the written text holds no `\n`, `\r` or `\t` |
| Serialization.NormalizeLeavesNoGaps | manipuladorXML.py:494-495 | the written text has no `>` followed by whitespace and then `<`, so the last `replace('?>\n<', '?><')` has nothing to replace |

## Left out

- File system. Listing the folder, `os.path.exists`, `os.rename` and file writing are not modelled. The folder is a set of names. The system's refusals of a rename are the parameter `refused`, and the write-backs that raise are the parameter `unwritable`.
- ElementTree. Parsing, `ET.tostring`, namespace registration and the namespaced-then-plain lookup of `find_element*` are not modelled. A parsed file is an abstract record; an unparsable one is `None`.
- Document shape. Repeated groups with the same tag inside `prod`, `emit` and `ICMSTot` are not modelled: each is a flat list of children. Elements with no text read as the empty string.
- Mappings.RekeyingFailsExactly, EditPass.PassAbortsExactly: an `emit/CNPJ` element with no text is read as "", so the model derives a key with fourteen zeros as its CNPJ field. The script reads it as `None` (manipuladorXML.py:131), and with re-keying on and the configured CNPJ not used, `''.join(filter(str.isdigit, None))` at line 267 raises outside the per-file `try` and ends the pass before any file is edited. The model does not have that abort. In the same way, an `nNF` element with no text gives the name " - Venda.xml" in the model and "None - Venda.xml" in the script (lines 125 and 187). Other text fields read as `None` (`CFOP`, `natOp`, `xTexto`) meet only `in`, `==` and truth tests, which treat `None` like "".
- Repeated tax groups in `imposto`. The script takes the first `ICMS`, `IPI`, `PIS` or `COFINS` child of `imposto` and searches only below it (manipuladorXML.py:360, 365, 375, 380, 388, 427). The model searches the leaves below every group with that tag, so the two differ only when an item has two groups with the same tag. Example: the first `IPI` holds only `cEnq` and the second holds `IPITrib/vIPI`. The script then finds no `vIPI`, but the model sums it and zeroes it. This affects `ItemEdit.SetInGroup`, `ItemEdit.CstRemapped`, `ItemEdit.IpiZeroed` and `Totals.IpiAmount`.
- Group paths in the tax configuration. The model holds only the leaves of `imposto`, so a configured tax path that names a group element (such as `IPI/IPITrib`) never matches in the model. The script sets that element's text and logs it (manipuladorXML.py:347-352). `ItemEdit.TaxesOverwritten` and `ItemEdit.OverwriteTaxes` hold for paths that end at a leaf.
- Configuration loading, company selection, the interactive loop and the script's entry point (manipuladorXML.py:73-96 and the end of the file) are I/O and are not modelled. The configuration is an already-loaded value.
- Clock and dates. `datetime.now()` is the parameter `now` (one reading per file, `clock(i)` for the i-th file). `strptime` is reduced to its outcome: unset, unparsable, or a date.
- Printing is not modelled. That covers the progress messages and the sorted, de-duplicated listing of the change list.
- Money.FormatAmountRoundTrip: `Decimal` is modelled on exact reals for plain decimal notation with an optional sign. Exponent notation, whitespace, underscores, `NaN` and `Infinity` count as unparsable, and Decimal context precision is not modelled.
- Dates.TimestampReadBack: the year is always written with four digits. Python's `%Y` writes years below 1000 without padding, so the model differs for those years.
- Digits are ASCII only. Python's `int()` and `str.isdigit` also accept other Unicode decimal digits, which the model treats as non-digits.
- ItemEdit.TaxesOverwritten: when several configured paths match the same leaf, it does not state which value that leaf finally holds. It states only the provenance of every changed leaf and the value left by the last configured path.
- Cancellation events and CT-e documents in the edit pass are skipped (manipuladorXML.py:310-311), as the code does. Their `chNFe` is not rewritten.
