# Guia organizer — verified model

This project models the core of a tool that sorts Brazilian tax-payment
slips ("guias"). The tool watches a folder for new PDF slips and reads the
first page of each one. It classifies the slip ("de Receitas Federais" or
"do eSocial") and pulls out the CNPJ, company name, document code, due
dates, amount and period. It then finds the company that the CNPJ belongs
to and opens that company's ledger. A ledger is a SQLite table of slips
whose file paths are unique.

Modules:

- `Wrappers` — `Option` and `Result`.
- `Text` — Python's `re.search` building blocks over `seq<char>`:
  - the leftmost scan (`FirstMatch`);
  - maximal character runs (`Span`);
  - greedy backtracking (`LastSplit`);
  - literals and fixed shapes (`LiteralAt`, `ShapeAt`);
  - the `\s` and `\d` classes.
- `PdfPatterns` — the regular expressions of `core/PDFProcessor.py`. Each one is a match at a position plus a search. The search's contract says when it fails and which occurrence it takes, in terms of the text alone.
- `PdfProcessor` — the type line read by the constructor, `_extrair_pdf_inss` with its two layouts, the recalculation flag and `_normalizar_raz_social`.
- `Models` — the records of `core/models.py`.
- `Ledger` — `class DatabaseManager`, whose state is:
  - `guias`, the table as a sequence of rows in insertion order;
  - `proximoId`, the AUTOINCREMENT counter.

  Its invariant `Valid()` is the UNIQUE constraint on `caminho_arquivo` plus increasing ids.
- `PdfHandler` — `main.py`:
  - the `.pdf` filter;
  - CNPJ-to-company lookup;
  - the ledger path;
  - the routing of `processar_pdf`.

Behaviour of the code that the model keeps:

- `PDFProcessor` extracts fields only for the two exact type lines "de Receitas Federais" and "do eSocial" (core/PDFProcessor.py:19). Any other type line is read and left alone.
- main.py moves a file to the conflicts folder for two reasons only: `EMPRESA_NAO_REGISTRADA` and `ERRO_PROCESSAMENTO`.
- The amount pattern (core/PDFProcessor.py:44) wants digits, a comma and one or two digits. An amount with a thousands dot ("1.234,56") does not match it, so extraction fails on it.
- `verificar_e_processar` (main.py:66-69) is an empty stub, so no duplicate or recalculated slip is resolved.

## Model

| member | source | states |
|---|---|---|
| PdfPatterns.SearchTipoDoc | core/PDFProcessor.py:18 | None iff "Documento de Arrecadação\n" never occurs; otherwise the whole line after its first occurrence |
| PdfPatterns.SearchCnpj | core/PDFProcessor.py:37 | None iff no NN.NNN.NNN/NNNN-NN shape occurs; otherwise the leftmost such 18-character substring |
| PdfPatterns.TipoDocAtLine | core/PDFProcessor.py:18 | what follows the header is captured up to the end of its line |
| PdfPatterns.EmpresaAtLine | core/PDFProcessor.py:38 | the company name is captured from after the CNPJ's whitespace to the end of that line |
| PdfPatterns.SearchEmpresa | core/PDFProcessor.py:38 | succeeds exactly when a CNPJ is found; the line that starts after the whitespace following the first CNPJ |
| PdfPatterns.SearchTokenBefore | core/PDFProcessor.py:39-41 | `(\S+)lit`: None iff no non-whitespace character is glued before `lit`; otherwise the token that opens its whitespace-delimited run, is followed by `lit`, has no glued occurrence at or before its start, and ends at the last occurrence of `lit` inside its run (`\S+` is greedy) |
| PdfPatterns.FirstTokenBeforeUnique | core/PDFProcessor.py:39-41 | at most one start and token satisfy that description, so it determines the search's result |
| PdfPatterns.TokenBeforeFound | core/PDFProcessor.py:39-41 | a run of non-whitespace up to an occurrence of `lit` is enough for `(\S+)lit` to match there |
| PdfPatterns.TokenBeforeScanPassed | core/PDFProcessor.py:39-41 | the leftmost scan of `(\S+)lit` cannot pass an occurrence of `lit` with a token glued to it |
| PdfPatterns.TokenBeforeScanStart | core/PDFProcessor.py:39-41 | the leftmost match of `(\S+)lit` starts at the beginning of its token |
| PdfPatterns.PagarDocumentoApart | core/PDFProcessor.py:39 | an occurrence of "Pagar este documento até" before another one ends its blank before the later one starts |
| PdfPatterns.CodIdentFirst | core/PDFProcessor.py:39 | no occurrence glued to a token starts inside the first glued token, so the code ends at the first glued occurrence |
| PdfPatterns.SearchCodIdent | core/PDFProcessor.py:39 | None iff nothing is glued to "Pagar este documento até"; otherwise the whole token ending at the first glued occurrence |
| PdfPatterns.SearchVencimentoUp | core/PDFProcessor.py:41 | None iff nothing is glued to "Observações"; otherwise the first token with a glued occurrence, opening its run and cut at the last "Observações" inside that run |
| PdfPatterns.TokenAfterAtFacts | core/PDFProcessor.py:42 | `lit(\S+)` matches at p exactly when a non-whitespace character follows `lit`, and captures the whole token |
| PdfPatterns.TokenAfterScanPassed | core/PDFProcessor.py:42 | the leftmost scan of `lit(\S+)` cannot pass an occurrence of `lit` followed by a token |
| PdfPatterns.SearchTokenAfter | core/PDFProcessor.py:42 | None iff `lit` is never followed by non-whitespace; otherwise the whole token after the first such occurrence |
| PdfPatterns.SearchVencimentoDown | core/PDFProcessor.py:42 | None iff "Pagar até: " is never followed by a token; otherwise the whole token after the first such occurrence |
| PdfPatterns.SearchCompetenciaESocial | core/PDFProcessor.py:50 | None iff "PA:" is never followed by a token; otherwise the token after the first such "PA:" |
| PdfPatterns.SearchDataVencimento | core/PDFProcessor.py:51 | None iff no "Data de Vencimento\n" is followed by dd/dd/dddd; otherwise that date after the first such label |
| PdfPatterns.NormalLayoutMatches | core/PDFProcessor.py:40 | "PA:", a token, whitespace, "Vencimento:" and a non-empty rest of line make the pattern match and capture the token and the rest of the line |
| PdfPatterns.CompVencAtHit | core/PDFProcessor.py:40 | every match of that pattern is such a layout (the backtracking of `\s+` included) |
| PdfPatterns.SearchCompVenc | core/PDFProcessor.py:40 | None iff the normal layout occurs nowhere; otherwise the groups of the leftmost occurrence |
| PdfPatterns.ValorAtHit | core/PDFProcessor.py:44 | a match after "Valor:" is an amount after that label: right after the label's whitespace, digits, a comma and one or two digits, the second decimal taken whenever there is one |
| PdfPatterns.ValorAtOnly | core/PDFProcessor.py:44 | an amount after the label at a position is exactly what the pattern captures there, so each label has at most one |
| PdfPatterns.SearchValor | core/PDFProcessor.py:44 | None iff no "Valor:" label is followed by an amount; otherwise the amount after the leftmost label that has one |
| PdfPatterns.ValorFound | core/PDFProcessor.py:44 | one position where the amount pattern matches is enough for the search to succeed |
| PdfPatterns.PontoDeMilharRejeitado | core/PDFProcessor.py:44 | when every "Valor:" is followed by digits and then a dot, no amount is found |
| PdfPatterns.ValorExemplo | core/PDFProcessor.py:44 | "Valor: 1234,56" yields "1234,56" |
| PdfPatterns.PontoDeMilharExemplo | core/PDFProcessor.py:44 | "Valor: 1.234,56", an amount with a thousands dot, yields nothing |
| PdfProcessor.ExtrairPdfInss | core/PDFProcessor.py:30-74 | succeeds iff every needed search succeeds (the eSocial ones only when the normal layout is absent); each field is its search's result; `vencimento` is present iff the two due dates agree; the normal layout takes precedence over the eSocial fallback |
| PdfProcessor.Recalculado | core/PDFProcessor.py:59 | flagged iff `vencimento` is missing or differs from the original due date |
| PdfProcessor.NaoRecalculadoQuandoCoincidem | core/PDFProcessor.py:41-59 | not flagged exactly when the date before "Observações", the date after "Pagar até: " and the original due date are all the same |
| PdfProcessor.RecalculadoQuandoVencimentosDivergem | core/PDFProcessor.py:43-59 | when the date before "Observações" and the date after "Pagar até: " differ, the slip is flagged as recalculated |
| PdfProcessor.Processar | core/PDFProcessor.py:12-20 | a missing header fails; extraction runs iff the type line is exactly one of the two handled types; the outcome carries that extraction's result |
| PdfProcessor.ExtrairPdfInssAsWritten | core/PDFProcessor.py:68-74 | as written the extraction never returns: either a search raises or the six-field `GuiaMetadados` rejects seven arguments |
| PdfProcessor.ErroAridadeSeCamposPresentes | core/PDFProcessor.py:68-74 | the arity error happens exactly on the slips whose fields are all present |
| PdfProcessor.Unidecode | core/PDFProcessor.py:25 | the transliteration is ASCII and leaves ASCII text unchanged |
| PdfProcessor.UpperAscii | core/PDFProcessor.py:25 | same length; no small letter is left; every character is the input's one up to letter case |
| PdfProcessor.KeepLettersAndSpaces | core/PDFProcessor.py:26 | only letters and whitespace remain, every letter is kept in order, text already of that kind is unchanged |
| PdfProcessor.KeepSingle | core/PDFProcessor.py:26 | one character is kept iff it is a letter or whitespace |
| PdfProcessor.KeepAppend | core/PDFProcessor.py:26 | the filter distributes over concatenation; with `KeepSingle` this fixes its result on every input |
| PdfProcessor.KeepWords | core/PDFProcessor.py:26 | the words of the filtered text are the letters of each input word, words without letters dropped |
| PdfProcessor.LettersAppend | core/PDFProcessor.py:26 | the letters of a concatenation are the letters of its parts |
| PdfProcessor.CollapseSpaces | core/PDFProcessor.py:27 | non-empty input gives non-empty output that starts, and ends, with whitespace iff the input does |
| PdfProcessor.CollapseWords | core/PDFProcessor.py:27 | collapsing keeps the words (the `str.split()` runs) exactly, in order |
| PdfProcessor.CollapseShape | core/PDFProcessor.py:27 | after collapsing, whitespace is single blanks only |
| PdfProcessor.CollapseLetters | core/PDFProcessor.py:27 | collapsing keeps every letter in order |
| PdfProcessor.CollapseChars | core/PDFProcessor.py:27 | collapsing introduces no character but the blank |
| PdfProcessor.CollapseIdentity | core/PDFProcessor.py:27 | text already made of single blanks is unchanged |
| PdfProcessor.Strip | core/PDFProcessor.py:27 | the result is a slice of the input with only whitespace cut off on either side, and no whitespace at its ends |
| PdfProcessor.StripWords | core/PDFProcessor.py:27 | stripping keeps the words exactly |
| PdfProcessor.StripLetters | core/PDFProcessor.py:27 | stripping keeps every letter in order |
| PdfProcessor.StripNormalised | core/PDFProcessor.py:27 | stripping capitals and single blanks gives a normalised name |
| PdfProcessor.CollapseOfNames | core/PDFProcessor.py:26-27 | collapsing upper-case letters and whitespace leaves only capitals and single blanks |
| PdfProcessor.NormalisedJoinWords | core/PDFProcessor.py:27 | a normalised name is its words joined by single blanks |
| PdfProcessor.NormalizarRazaoSocial | core/PDFProcessor.py:23-27 | the result is upper-case A–Z words separated by single blanks with no blank at either end; it is exactly the letters of each word of the transliterated, upper-cased name, words without letters dropped, joined by single blanks |
| PdfProcessor.StepsPreserveNormalised | core/PDFProcessor.py:25-26 | transliterating, upper-casing and filtering leave a normalised name unchanged |
| PdfProcessor.NormalizarIdempotente | core/PDFProcessor.py:23-27 | normalising a normalised name gives it back |
| Ledger.PosicaoDoCaminho | core/DatabaseManager.py:50 | None iff no row holds the path; otherwise a row that does |
| Ledger.Removido | core/DatabaseManager.py:186 | the rows kept are exactly the rows without the path; an absent path changes nothing |
| Ledger.UltimoPorTripla | core/DatabaseManager.py:113-124 | None iff no row matches (competencia, vencimento, valor); otherwise a stored matching row with the greatest `data_processamento` |
| Ledger.OrdenarPorData | core/DatabaseManager.py:134-138 | rows ordered by `data_processamento` descending, a permutation of the input |
| Ledger.InserirOrdenado | core/DatabaseManager.py:137 | inserting into a descending list keeps it descending and adds exactly the one row |
| Ledger.InserirMantemValida | core/DatabaseManager.py:45-53 | appending a row for an unused path with the next id keeps paths unique and ids increasing |
| Ledger.Renomeado | core/DatabaseManager.py:161-165 | ids are kept; every row holding the old path holds the new one, its other columns unchanged; every other row is unchanged |
| Ledger.RenomearMantemValida | core/DatabaseManager.py:161-172 | renaming to an unused (or the same) path keeps paths unique |
| Ledger.RenomearUmaLinha | core/DatabaseManager.py:161-165 | with unique paths the UPDATE changes exactly the one row that held the old path |
| Ledger.RemoverMantemValida | core/DatabaseManager.py:45-53 | deleting keeps paths unique and ids increasing |
| Ledger.RemoverUmaLinha | core/DatabaseManager.py:186-188 | with unique paths, deleting an existing path removes exactly its row |
| Ledger.DatabaseManager.constructor | core/DatabaseManager.py:20-53 | opens a ledger holding the stored rows and counter |
| Ledger.DatabaseManager.InsertGuia | core/DatabaseManager.py:66-99 | True iff the path was unused, then exactly one row with a fresh id is appended; False leaves table and counter unchanged; the invariant is kept |
| Ledger.DatabaseManager.FindDuplicateGuia | core/DatabaseManager.py:101-128 | None iff no row matches the triple; otherwise a stored matching row with maximal `data_processamento` |
| Ledger.Cursor.FetchAll | core/DatabaseManager.py:139-140 | `fetchall` hands out every pending row and leaves none |
| Ledger.DatabaseManager.GetAllGuias | core/DatabaseManager.py:130-140 | as written, always the empty list: the printed `fetchall` drains the cursor before the returned one |
| Ledger.DatabaseManager.GetAllGuiasOrdenadas | core/DatabaseManager.py:134-140 | every row, latest first, each exactly once |
| Ledger.DatabaseManager.UpdateGuiaPath | core/DatabaseManager.py:146-172 | True iff the old path existed and the new one is free or equal; then only the renaming happens; otherwise nothing changes; the invariant is kept |
| Ledger.DatabaseManager.DeleteGuia | core/DatabaseManager.py:174-192 | True iff the path existed; the rows without it stay in order; the counter is not rewound; the invariant is kept |
| Ledger.ListarAposInserir | core/DatabaseManager.py:139-140 | after one insertion into an empty ledger, the listing as written is empty and the intended one holds the slip |
| PdfHandler.ApenasDigitos | main.py:63 | only digits remain, and never more characters than were there |
| PdfHandler.ApenasDigitosUnitario | main.py:63 | one character is kept iff it is a digit; with `ApenasDigitosAppend` this fixes the result on every input |
| PdfHandler.ApenasDigitosDeDigitos | main.py:63 | text made of digits only is unchanged |
| PdfHandler.ApenasDigitosAppend | main.py:63 | keeping digits distributes over concatenation |
| PdfHandler.ApenasDigitosIdempotente | main.py:63 | keeping digits twice is keeping them once |
| PdfHandler.IdentificarEmpresa | main.py:61-64 | a company is found iff the CNPJ's digits are a key, and it is that key's company |
| PdfHandler.ChaveDoCnpjFormatado | main.py:63 | the digits of a CNPJ written NN.NNN.NNN/NNNN-NN are its five digit groups joined |
| PdfHandler.CnpjFormatadoMesmaEmpresa | main.py:63-64 | a CNPJ written NN.NNN.NNN/NNNN-NN and its bare fourteen digits find the same company |
| PdfHandler.CarregarEmpresas | main.py:30-33 | same keys as the companies file; every company's `cnpj` is its key and the other fields come from its entry |
| PdfHandler.EmpresaEncontradaTemOCnpj | main.py:33 | a company found for a CNPJ carries exactly that CNPJ's digits |
| PdfHandler.LowerAscii | main.py:36 | same length; no capital is left; every character is the input's one up to letter case |
| PdfHandler.DeveProcessar | main.py:35-37 | processed iff not a directory and the name ends in ".pdf" in any letter case |
| PdfHandler.CaminhoBanco | main.py:51 | the ledger file is `<cnpj>.db` directly inside the ledger folder |
| PdfHandler.CaminhoBancoInjetivo | main.py:51 | distinct companies never share a ledger file |
| PdfHandler.ProcessarPdf | main.py:39-59 | the ledger is opened iff extraction succeeded, the company is registered and the ledger opens; an unregistered company goes to conflicts as EMPRESA_NAO_REGISTRADA iff the move of line 47 succeeds; an exception inside the try (the extraction, that move, or opening the ledger) sends the file to conflicts as ERRO_PROCESSAMENTO iff the move of line 59 succeeds, and escapes the handler otherwise |
| PdfHandler.NaoRegistradaMoveFalhaViraErro | main.py:46-59 | an unregistered company's file whose first move raises ends as ERRO_PROCESSAMENTO when the move in the except branch succeeds |
| PdfHandler.ProcessarPdfAsWritten | main.py:42 | as written the handler behaves as if extraction always raises |
| PdfHandler.AsWrittenNuncaAbreBanco | main.py:39-59 | as written no file reaches a ledger or is reported unregistered |
| PdfHandler.RegistradaAbreSeuBanco | main.py:45-52 | a registered company's slip opens the ledger named after that company's key |

## Left out

- Reading the PDF with PyPDF2 is not modelled. The input is the first page's extracted text.
- `unidecode` is a foreign library. It is a parameter mapping each non-ASCII character to an ASCII string; ASCII passes through.
- `\d` and `str.isdigit` are modelled on ASCII digits only. Python also accepts other Unicode digits.
- `str.upper` and `str.lower` are modelled on ASCII letters only. This is exact where they are used: on ASCII text after `unidecode`, and for the ".pdf" suffix.
- `re.sub(r'[^\w\s]|[\d_]', '', …)` is modelled for ASCII input, which is all that reaches it after `unidecode`.
- PdfProcessor.KeepLettersAndSpaces: requires ASCII input, for the reason above.
- SQLite connection, index creation, commits, logging and `close`/context manager are not modelled.
- Environmental `sqlite3.Error` failures (disk, locks) are not modelled. Every modelled False/None comes from the table contents.
- NOT NULL violations are not modelled, because every field is a present value.
- `valor` is stored as REAL. Here it is an opaque string compared for equality.
- `data_processamento` is an integer supplied by the caller. The `datetime.now()` default in core/models.py:19 is evaluated once, when the module is imported.
- Ledger.UltimoPorTripla: on ties in `data_processamento` SQLite may return any of the tied rows. The model picks the earliest inserted of them; the contract only promises a maximal one.
- PdfProcessor.Recalculado: the 'Sim'/'Nao' string at line 59 is computed and then discarded. It is modelled as a boolean function of the extracted record.
- `verificar_e_processar` (main.py:66-69) is an empty stub and is not a step of the model.
- FileManager's move (core/FileManager.py:14-15) is not modelled. Whether each of the two moves in `processar_pdf` raises (line 47 for an unregistered company, line 59 in the except branch) is a separate parameter of `ProcessarPdf`. The move ignores its reason argument.
- The watchdog observer, the sleep loop and logging are not modelled.
- config.py is not part of this model. Its only content is folder constants.
- main.py:26 builds `PDFProcessor()` with no argument, which its constructor does not accept. The handler object is therefore not modelled as a whole; its operations are modelled one by one.
- main.py:66 annotates a parameter with `GuiaMetadados`, which main.py does not import. Before Python 3.14 annotations are evaluated when the class body runs, so importing main.py raises `NameError`. The model treats the handler's methods as defined.
- `carregar_empresas` passes each JSON entry as keyword arguments. Entries with missing or extra keys raise at load time; here the entries are already typed.
- The ledger path is modelled as string concatenation with "/". pathlib's normalisation of separators is not modelled.

## Findings

| source | as written | input that shows it | evidently intended | confidence | as-written member | corrected member |
|---|---|---|---|---|---|---|
| core/DatabaseManager.py:139-140 | `print(cursor.fetchall())` consumes every row, so the returned list is always empty | a ledger holding one slip | return all rows, latest `data_processamento` first | high, not executed | Ledger.DatabaseManager.GetAllGuias | Ledger.DatabaseManager.GetAllGuiasOrdenadas |
| core/PDFProcessor.py:68-74 | seven positional arguments for the six-field `GuiaMetadados` of core/models.py:12-19 raise `TypeError` | any first page on which every search succeeds | return the seven extracted values | high, not executed | PdfProcessor.ExtrairPdfInssAsWritten | PdfProcessor.ExtrairPdfInss |
| main.py:42 | `extrair_metadados` is not a method of `PDFProcessor`, so every file ends as `ERRO_PROCESSAMENTO` | any created PDF | extract the slip, then route on its CNPJ | high, not executed | PdfHandler.ProcessarPdfAsWritten | PdfHandler.ProcessarPdf |
