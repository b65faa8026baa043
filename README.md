# Invoice PDF extraction: a verified Dafny model

This project models the deterministic core of the invoice pipeline of
`extract-pdf-data`. The pipeline:

- identifies the supplier of each invoice PDF with a template of named
  crop boxes;
- extracts and cleans the fields of the invoice into a record of nine
  standard columns plus `_` metadata;
- marks repeated invoices as duplicates;
- counts the run;
- files every PDF into `procesados/facturas|duplicados|errores`, keeping a
  per-quarter index and an operation log;
- exports the records without their metadata columns.

The modules follow the source files:

| module | models |
|---|---|
| `Text`, `Json`, `Wrappers`, `Pdf` | the Python string operations, JSON values with Python truthiness, and what the pipeline asks of a PDF (the text a page or a crop box yields) |
| `CifValue` | `src/utils/cif.py`: the CIF value object |
| `DataCleaners`, `Dates`, `Pattern` | `src/utils/data_cleaners.py`: `clean_text`, `clean_date` (with the `strptime` formats and the `re.search` fallback it uses) and `clean_numeric` |
| `Templates`, `TemplateLoading` | `MAPEO_CAMPOS`, `validar_plantilla` and `cargar_plantillas` |
| `Similarity`, `Identification` | `_calcular_similitud` and `identificar_proveedor` |
| `FieldProcessing`, `Extraction` | `procesar_campo` with its three cleaners, and `extraer_datos_factura` |
| `Directory`, `Statistics` | `procesar_directorio_facturas` and `obtener_estadisticas` |
| `Extractor` | the `PDFExtractor` object: a class whose loops are proved to compute the functions above |
| `OrganizerRules`, `Organizer` | `src/file_organizer.py`: the pure rules (dates, quarters, folders, collision names, log line) and the `PDFOrganizer` object over a set of existing paths, a map of index files and the log |
| `Export` | `src/excel_exporter.py`: `_filtrar_columnas_estandar`, the empty-data guards and the JSON export document |

Clocks, the file system and the PDF library are parameters:
- timestamps are strings passed in;
- a directory listing is a sequence of names (with parsed contents for templates);
- the file system the organizer moves files in is a `set` of paths;
- a PDF is a `Document` of `Page` values.

## Model

| member | source | states |
|---|---|---|
| CifValue.Sanitize | src/utils/cif.py:51-78 | `None` gives `""`; the result holds only uppercase letters and digits and is no longer than the input |
| CifValue.SanitizeDropsOthers | src/utils/cif.py:73-75 | a string with no ASCII letter or digit sanitises to `""` |
| CifValue.SanitizeAlnum | src/utils/cif.py:73-78 | a string of letters and digits sanitises to its uppercase form |
| CifValue.SanitizeDecorated | src/utils/cif.py:70-78 | separators and padding around and between alphanumeric runs are dropped and the runs are uppercased and joined |
| CifValue.SanitizeMixedExample | src/utils/cif.py:55-59 | `" E-98530/876 "` sanitises to `E98530876` |
| CifValue.SanitizeAppend | src/utils/cif.py:73-78 | sanitising distributes over concatenation |
| CifValue.SanitizeIdempotent | src/utils/cif.py:51-78 | sanitising a sanitised value changes nothing |
| CifValue.ToStringRoundTrip | src/utils/cif.py:127-129 | building a CIF from `str(cif)` yields the same CIF |
| CifValue.IsValidShape | src/utils/cif.py:80-101 | valid iff the value is one uppercase letter and 8 digits, or 8 digits and one uppercase letter |
| CifValue.ValidShapesExclusive | src/utils/cif.py:95-101 | a valid value has exactly one of the two shapes |
| CifValue.IsValidExamples | src/utils/cif.py:84-87 | `E98530876` and `12345678Z` are valid; `123456789`, `ABCDEFGHI`, `E123` and `""` are not |
| CifValue.EqStringIsEqCif | src/utils/cif.py:115-120 | comparing with a string is comparing with the CIF built from it |
| CifValue.EqIsEquivalence | src/utils/cif.py:103-125 | `==` between CIFs is reflexive, symmetric and transitive, and `!=` is its negation |
| CifValue.EqRawIffSameSanitised | src/utils/cif.py:103-121 | a CIF built from `x` equals the string `y` iff both sanitise alike, symmetrically |
| CifValue.EqualHashes | src/utils/cif.py:135-137 | equal CIFs hash alike, for any string hash |
| DataCleaners.CollapseSpaces | src/utils/data_cleaners.py:44 | every whitespace run becomes one space: no longer than the input, empty iff the input is, single-spaced |
| DataCleaners.DropControl | src/utils/data_cleaners.py:48 | the result holds no control character of the deleted class |
| DataCleaners.CleanText | src/utils/data_cleaners.py:24-50 | no control characters, every whitespace is a space, no leading or trailing space |
| DataCleaners.CleanTextKeepsVisible | src/utils/data_cleaners.py:40-50 | the visible characters are kept in order |
| DataCleaners.CleanTextFixpoint | src/utils/data_cleaners.py:40-50 | an already tidy text is returned unchanged |
| DataCleaners.CleanTextKeepsDoubleSpace | src/utils/data_cleaners.py:44-50 | `"a \0 b"` cleans to `"a  b"` (two spaces), which cleans again to `"a b"`: the function is not idempotent |
| DataCleaners.CleanTextControlWords | src/utils/data_cleaners.py:44-50 | control characters inside words vanish and `\x1f` (a Python whitespace) becomes a space |
| DataCleaners.CleanTextExample | src/utils/data_cleaners.py:44-50 | `"texto\0con\x1fcaracteres\x7fcontrol"` cleans to `"textocon caracterescontrol"` |
| DataCleaners.CleanDate | src/utils/data_cleaners.py:53-120 | `""` iff the cleaned text is empty; otherwise the cleaned text or a `DD/MM/YYYY` date |
| DataCleaners.CleanDateRoundTrip | src/utils/data_cleaners.py:84-97 | a `DD/MM/YYYY` date is returned unchanged |
| DataCleaners.CleanDateIso | src/utils/data_cleaners.py:84-97 | `YYYY-MM-DD` becomes `DD/MM/YYYY` |
| DataCleaners.CleanDateShortYear | src/utils/data_cleaners.py:84-97 | `DD/MM/YY` becomes `DD/MM/YYYY` with the `%y` century rule (69-99 → 19xx, 00-68 → 20xx) |
| DataCleaners.CleanDateEmbedded | src/utils/data_cleaners.py:102-117 | a date inside a label is found by the pattern search and formatted |
| DataCleaners.CleanDateIsoExample | src/utils/data_cleaners.py:70-71 | `2024-01-15` gives `15/01/2024` |
| DataCleaners.CleanDateShortYearExample | src/utils/data_cleaners.py:72-73 | `15/01/24` gives `15/01/2024` |
| DataCleaners.CleanDateLabelExample | src/utils/data_cleaners.py:74-75 | `Fecha: 15/01/2024 (vencimiento)` gives `15/01/2024` |
| DataCleaners.CleanDateNoDigits | src/utils/data_cleaners.py:93-120 | text without digits is returned cleaned but otherwise as it was |
| DataCleaners.CleanDateNoDateExample | src/utils/data_cleaners.py:120 | `No hay fecha aquí` is returned unchanged |
| DataCleaners.SearchDateAfterPrefix | src/utils/data_cleaners.py:102-117 | after a digit-free prefix, the search finds the embedded date |
| DataCleaners.KeepNumeric | src/utils/data_cleaners.py:151 | only digits, `.`, `,`, `+` and `-` remain |
| DataCleaners.LastSeparator | src/utils/data_cleaners.py:157-159 | the position of the last `,` or `.`, or -1 |
| DataCleaners.CleanNumericCases | src/utils/data_cleaners.py:147-181 | either a literal `float()` accepts, with no comma and the same digits in order, or the stripped input |
| DataCleaners.CleanNumericDecimalPoint | src/utils/data_cleaners.py:157-173 | the decimal point of the result sits where the input's last separator was |
| DataCleaners.CleanNumericEuropean | src/utils/data_cleaners.py:157-161 | `a.b,c` becomes `ab.c` |
| DataCleaners.CleanNumericAmerican | src/utils/data_cleaners.py:162-164 | `a,b.c` becomes `ab.c` |
| DataCleaners.CleanNumericCommaDecimal | src/utils/data_cleaners.py:165-170 | a single comma followed by at most 2 digits is a decimal point |
| DataCleaners.CleanNumericCommaThousands | src/utils/data_cleaners.py:171-173 | a single comma followed by 3 or more digits is dropped |
| DataCleaners.CleanNumericIgnoresText | src/utils/data_cleaners.py:151 | text around a number (a currency sign, a label) does not change the result |
| DataCleaners.CleanNumericPlain | src/utils/data_cleaners.py:176-178 | a plain float literal is returned unchanged |
| DataCleaners.CleanNumericNoNumber | src/utils/data_cleaners.py:153-154 | text with no numeric character is returned stripped |
| DataCleaners.CleanNumericSeparatorExamples | src/utils/data_cleaners.py:140-143 | `1.234,56` and `1,234.56` both give `1234.56` |
| DataCleaners.CleanNumericCommaExamples | src/utils/data_cleaners.py:165-173 | `123,45` gives `123.45` and `1,234` gives `1234` |
| DataCleaners.CleanNumericNegativeExample | src/utils/data_cleaners.py:144-145 | `-123.45` is returned unchanged |
| DataCleaners.CleanNumericTextExample | src/utils/data_cleaners.py:179-181 | `No es un número` is returned as it was |
| Dates.FormatParseRoundTrip | src/utils/data_cleaners.py:95-97 | parsing `%d/%m/%Y` inverts formatting |
| Dates.FormatDateInjective | src/utils/data_cleaners.py:97 | distinct dates format differently |
| Dates.FirstParseIsFirstSuccess | src/utils/data_cleaners.py:93-99 | the formats loop yields the date of the first format that parses |
| Dates.FirstParseIso | src/utils/data_cleaners.py:84-99 | `YYYY-MM-DD` parses to its date |
| Dates.FirstParseShortYear | src/utils/data_cleaners.py:84-99 | `DD/MM/YY` parses to its date with the `%y` century rule |
| Dates.FirstParseAfterPrefix | src/utils/data_cleaners.py:93-99 | a date behind a non-digit label, with no other `/` or `-` around it, is parsed by no format, so only the pattern search can find it |
| Pattern.MatchAtSound | src/utils/data_cleaners.py:102-108 | a match found at a position matches the pattern |
| Pattern.MatchAtComplete | src/utils/data_cleaners.py:102-108 | if the pattern matches some span from a position, the matcher finds a match there |
| Pattern.SearchLeftmost | src/utils/data_cleaners.py:107-110 | `re.search` returns the leftmost matching position, and none when no position matches |
| Pattern.RunIsLongest | src/utils/data_cleaners.py:103-104 | a greedy repetition takes the longest run available |
| Templates.MapFieldNameLands | src/pdf_extractor.py:17-32 | a legacy field name maps to one of the nine standard columns; any other name maps to itself |
| Templates.MapFieldNameIdempotent | src/pdf_extractor.py:17-32 | mapping a mapped name changes nothing |
| Templates.LegacyNames | src/pdf_extractor.py:17-32 | the entries of `MAPEO_CAMPOS` |
| Templates.FieldsValidIff | src/pdf_extractor.py:111-125 | the field loop accepts iff every field is an object with `nombre`, `coordenadas`, `tipo` and four coordinates |
| Templates.ValidateTemplateIff | src/pdf_extractor.py:88-127 | validation answers `True` iff the template is well formed, and always answers for an object |
| Templates.Lookup | src/pdf_extractor.py:264-266 | found iff the id is loaded, and then it is that table entry |
| Templates.PutLookup | src/pdf_extractor.py:73-75 | storing under an id makes it found there and leaves other ids as they were |
| Templates.PutKeepsTable | src/pdf_extractor.py:73-75 | storing keeps ids unique and the table well formed |
| Templates.SplitExtJoin | src/pdf_extractor.py:74 | `os.path.splitext` splits a name into two parts that rejoin to it |
| Templates.StemOfJsonName | src/pdf_extractor.py:66-74 | `x.json` is a template file keyed by `x` |
| Templates.StemInjective | src/pdf_extractor.py:74 | different file roots give different ids |
| TemplateLoading.LoadAllLookup | src/pdf_extractor.py:65-84 | after loading, an id maps to the last loadable file with that stem, else to what it mapped to before |
| TemplateLoading.LoadAllKeepsTable | src/pdf_extractor.py:65-84 | loading keeps ids unique and every template valid |
| TemplateLoading.LoadedCountPositive | src/pdf_extractor.py:86 | loading reports success iff some file was loadable |
| TemplateLoading.LoadAllSkips | src/pdf_extractor.py:66-84 | files that are not valid JSON templates change nothing |
| TemplateLoading.LoadedUnderStem | src/pdf_extractor.py:66-75 | a valid `root.json` is found under `root` |
| Similarity.Score | src/pdf_extractor.py:236-251 | the score is a ratio with a positive denominator |
| Similarity.NormalizeShape | src/pdf_extractor.py:224-230 | a normalised name is lowercase, free of the listed punctuation, single-spaced and trimmed |
| Similarity.ScoreBounds | src/pdf_extractor.py:236-251 | the score is at most 100 % |
| Similarity.ScoreSymmetric | src/pdf_extractor.py:236-251 | the score does not depend on argument order |
| Similarity.ScoreFullIff | src/pdf_extractor.py:236-251 | the score is 100 % iff the normalised names are equal |
| Similarity.EqualNormalFormsMatch | src/pdf_extractor.py:199 | names with equal normal forms pass the 85 % threshold |
| Identification.Verdicts | src/pdf_extractor.py:153-201 | one verdict per loaded template, in table order |
| Identification.FirstOfIff | src/pdf_extractor.py:153-201 | the result is the first template whose verdict is a match, with only non-matches before it |
| Identification.FirstMatchIff | src/pdf_extractor.py:150-201 | a template id is returned iff it matches on the first page and every earlier template does not |
| Identification.IdentifyNeedsPage | src/pdf_extractor.py:144-148 | an unreadable PDF or one with no page has no provider; an identified provider is a loaded id |
| Identification.IdentifyFirstPageOnly | src/pdf_extractor.py:150 | only the first page decides |
| Identification.JudgeByCif | src/pdf_extractor.py:182-190 | a read CIF equal to the template's stripped, lowercased CIF identifies the template |
| Identification.JudgeByName | src/pdf_extractor.py:194-201 | a read name with the template name's normal form identifies the template |
| Identification.JudgeNothingRead | src/pdf_extractor.py:186-201 | with nothing read, a template never matches |
| Identification.IdentifyIdentityText | src/pdf_extractor.py:183-184 | the template identification names has a string provider name and a string CIF or none, since `.strip()` raises on anything else |
| Identification.NoIdentificationFields | src/pdf_extractor.py:160-162 | a template without identification fields reads nothing |
| FieldProcessing.CleanFieldTextShape | src/pdf_extractor.py:367-373 | `limpiar_texto` yields text with no control characters, single-spaced and trimmed |
| FieldProcessing.CleanFieldTextIdempotent | src/pdf_extractor.py:367-373 | `limpiar_texto` is idempotent |
| FieldProcessing.NewlineJoinsWords | src/pdf_extractor.py:367-373 | a newline between words is deleted by `limpiar_texto` but becomes a space in `clean_text` |
| FieldProcessing.CleanFieldNumberAgrees | src/pdf_extractor.py:427-456 | `limpiar_numerico` is `clean_numeric` |
| FieldProcessing.CleanFieldDateCases | src/pdf_extractor.py:375-425 | `limpiar_fecha` yields the cleaned text or a `DD/MM/YYYY` date |
| FieldProcessing.ProcessFieldEmpty | src/pdf_extractor.py:355-356 | no text, or `""`, gives `""` |
| FieldProcessing.ProcessFieldBlank | src/pdf_extractor.py:355-365 | whitespace only gives `""` for every field type |
| FieldProcessing.ProcessFieldNumber | src/pdf_extractor.py:358-361 | a `numerico` field is the stripped text, or a float literal |
| FieldProcessing.ProcessFieldDate | src/pdf_extractor.py:362-363 | a `fecha` field is cleaned text or a `DD/MM/YYYY` date |
| FieldProcessing.ProcessFieldText | src/pdf_extractor.py:364-365 | any other field type is cleaned text with no control characters |
| Extraction.InitialRecordColumns | src/pdf_extractor.py:270-285 | the starting record has the nine columns, the template's CIF, the run's quarter and year, and no `_Error` |
| Extraction.RunFieldsKeepsKeys | src/pdf_extractor.py:298-333 | the field loop never removes a key |
| Extraction.RunFieldsNeverBlanks | src/pdf_extractor.py:315-333 | a column keeps its value or receives a non-empty one |
| Extraction.RunFieldsUntouched | src/pdf_extractor.py:298-333 | a column no field targets keeps its value |
| Extraction.AuxKeyIsMetadata | src/pdf_extractor.py:323-325 | a non-standard field is stored under a `_` key |
| Extraction.RunFieldsSuccessBound | src/pdf_extractor.py:296-320 | successes never exceed the number of fields |
| Extraction.ExtractUnknownIff | src/pdf_extractor.py:264-265 | extraction raises exactly for an id that is not loaded |
| Extraction.ExtractColumns | src/pdf_extractor.py:262-342 | for a loaded id the record has every standard column, and untargeted CIF/quarter/year keep their initial values |
| Extraction.ExtractInvoiceText | src/pdf_extractor.py:271-340 | under a template with string CIF and name, every value of the extracted record is a string, `_Error` included |
| Extraction.ExtractWithoutFields | src/pdf_extractor.py:335-340 | a template with no fields yields a record with `_Error` |
| Extraction.ExtractOneField | src/pdf_extractor.py:303-320 | one field with a non-empty cleaned value is stored under its standard column and nothing else changes |
| Directory.PdfFiles | src/pdf_extractor.py:469 | only names ending in `.pdf` (any case) are kept |
| Directory.PdfFilesIff | src/pdf_extractor.py:469 | a file is kept iff it is listed and is a PDF name |
| Directory.PdfFilesAppend | src/pdf_extractor.py:469 | the PDF files keep listing order: the PDFs of a listing `a + b` are those of `a` followed by those of `b` |
| Directory.Examine | src/pdf_extractor.py:486-510 | an examined invoice has a hashable duplicate key |
| Directory.ResultsAt | src/pdf_extractor.py:481-551 | one record per PDF, in listing order |
| Directory.SeenIff | src/pdf_extractor.py:493-506 | a key is in the set of processed invoices iff an earlier extracted invoice had it |
| Directory.ResultsDuplicateIff | src/pdf_extractor.py:493-506 | `_Duplicado` is true iff an earlier invoice had the same (CIF, NumFactura, FechaFactura), and then `_Motivo_Duplicado` is set |
| Directory.DuplicateIff | src/pdf_extractor.py:481-508 | the same, stated over the PDF files themselves |
| Directory.ExtractedKept | src/pdf_extractor.py:490-508 | an extracted record is kept as extracted apart from the two duplicate keys |
| Directory.UnidentifiedRecord | src/pdf_extractor.py:531-551 | an unidentified PDF yields the error record with `NO_IDENTIFICADO` |
| Directory.ErrorRecordShape | src/pdf_extractor.py:513-529 | an error record has empty standard columns except quarter and year, and carries the provider, the error and the file |
| Directory.RecordsText | src/pdf_extractor.py:470-535 | every value of every record of the run is a string, except the boolean `_Duplicado` |
| Directory.FailuresCarryError | src/pdf_extractor.py:510-551 | every failure record carries `_Error` |
| Statistics.CountErrors | src/pdf_extractor.py:570 | at most one per record |
| Statistics.CountPartition | src/pdf_extractor.py:570-572 | clean + erroneous + duplicate records = all records + those both erroneous and duplicate |
| Statistics.AsWrittenAgreesIff | src/pdf_extractor.py:570-572 | the source's count equals the corrected one iff no record is both erroneous and duplicate |
| Statistics.CorrectedSuccesses | src/pdf_extractor.py:572 | the corrected success count is non-negative and completes the partition |
| Statistics.NegativeSuccesses | src/pdf_extractor.py:570-572 | two failed records, one a duplicate, give -1 successes as written and 0 corrected |
| Statistics.FailedDuplicateCountsTwice | src/pdf_extractor.py:493-510 | a run produces records that are both erroneous and duplicate whenever a failed extraction repeats an earlier key |
| Statistics.TallyConsistent | src/pdf_extractor.py:575-585 | per provider, successes + errors = total, and a provider appears iff some record names it |
| Statistics.TallyCounts | src/pdf_extractor.py:575-585 | per provider, the total and the errors are its record counts |
| Extractor.PdfExtractor.constructor | src/pdf_extractor.py:34-50 | no templates and no results |
| Extractor.PdfExtractor.LoadTemplates | src/pdf_extractor.py:52-86 | a missing directory fails and changes nothing; otherwise the table is the loaded one, and the answer is whether some file loaded |
| Extractor.PdfExtractor.ReadIdentification | src/pdf_extractor.py:160-179 | the identification texts the inner loop reads |
| Extractor.PdfExtractor.Identify | src/pdf_extractor.py:129-207 | the id the identification function gives |
| Extractor.PdfExtractor.RunFieldLoop | src/pdf_extractor.py:298-333 | the record and success count of the field loop, or where it stopped |
| Extractor.PdfExtractor.ExtractInvoice | src/pdf_extractor.py:253-342 | the record the extraction function gives, or its error |
| Extractor.PdfExtractor.ExamineFile | src/pdf_extractor.py:486-510 | the examination of one file |
| Extractor.PdfExtractor.ProcessFile | src/pdf_extractor.py:486-551 | the record of one file and the key set after it |
| Extractor.PdfExtractor.ProcessDirectory | src/pdf_extractor.py:458-557 | no directory or no PDF returns `[]` and keeps the results; otherwise the results are the directory's records |
| Extractor.PdfExtractor.Summary | src/pdf_extractor.py:559-593 | the statistics of the stored results, `None` (`{}`) when there are none, with successes counted as the records that are neither errors nor duplicates |
| OrganizerRules.NormalizeDayFirst | src/file_organizer.py:173-178 | `D/M/Y` becomes `Y-MM-DD`, zero-filled |
| OrganizerRules.NormalizeIso | src/file_organizer.py:169-171 | a date whose first `-` field has four characters is unchanged |
| OrganizerRules.NormalizedNoSlash | src/file_organizer.py:173-178 | a normalised `D/M/Y` has no `/` left |
| OrganizerRules.NormalizeDateIdempotent | src/file_organizer.py:156-182 | normalising twice is normalising once |
| OrganizerRules.QuarterOfMonth | src/file_organizer.py:222-230 | month m is quarter `(m+2)/3` |
| OrganizerRules.RealQuarterIso | src/file_organizer.py:207-232 | `Y-M-D` gives the quarter of month M and the year Y |
| OrganizerRules.RealQuarterDayFirst | src/file_organizer.py:207-232 | `D/M/Y` gives the quarter of month M and the year Y |
| OrganizerRules.RealQuarterNormalized | src/file_organizer.py:208-209 | the quarter of a date is the quarter of its normal form |
| OrganizerRules.RealQuarterLabels | src/file_organizer.py:210-236 | the quarter is one of `1T`..`4T`, or both parts are empty |
| OrganizerRules.PyIntDigits | src/file_organizer.py:220 | `int()` of a digit string is its value |
| OrganizerRules.MonthOfShape | src/file_organizer.py:516-544 | the month folder has at least two characters and is `00` for an empty date |
| OrganizerRules.MonthOfDayFirst | src/file_organizer.py:529-534 | the month folder of `D/M/Y` is M zero-filled to two |
| OrganizerRules.KeepFolderCharsAllowed | src/file_organizer.py:512-513 | only `[A-Za-z0-9_-]` are kept |
| OrganizerRules.SlugShape | src/file_organizer.py:501-514 | the folder name is non-empty and made of allowed characters |
| OrganizerRules.SlugKeeps | src/file_organizer.py:510-514 | an allowed name is its own folder name |
| OrganizerRules.SlugIdempotent | src/file_organizer.py:501-514 | normalising a folder name again changes nothing |
| OrganizerRules.SlugSpaces | src/file_organizer.py:509-510 | a space between allowed words becomes `_` |
| OrganizerRules.StemSuffix | src/file_organizer.py:327-329 | stem and suffix rejoin to the name |
| OrganizerRules.CandidateNamesDiffer | src/file_organizer.py:331-333 | distinct counters give distinct file names |
| OrganizerRules.NatToStringLength | src/file_organizer.py:332 | a counter of at least 10^m prints with more than m digits |
| OrganizerRules.LogLineFields | src/file_organizer.py:358-361 | the line ends in a newline and has four `\|` fields, five with details |
| Organizer.KeywordCount | src/file_organizer.py:272-274 | at most one count per keyword |
| Organizer.EmptyIndex | src/file_organizer.py:103-109 | an empty index of that year and quarter |
| Organizer.FirstDuplicateIff | src/file_organizer.py:143-154 | a duplicate is found iff some entry has the same CIF, number and normalised date, and it is the first such entry |
| Organizer.FiledIsDuplicate | src/file_organizer.py:446-448 | an entry filed with its date normalised is found again for the same invoice |
| Organizer.FirstDuplicateAppend | src/file_organizer.py:148-152 | entries added after a match do not change the entry found |
| Organizer.FreeChoiceUnique | src/file_organizer.py:325-333 | the place a file is moved to is determined by the existing paths |
| Organizer.TakenNameMovesAside | src/file_organizer.py:325-333 | when the name is taken, the file goes to a new path, not the requested one |
| Organizer.LengthBound | src/file_organizer.py:331-333 | every set of existing paths has a length bound, so the counter loop ends |
| Organizer.CandidateLength | src/file_organizer.py:331-333 | from 10^b on, every numbered name is longer than b |
| Organizer.AnalyseFirstFive | src/file_organizer.py:266 | pages after the fifth are never read |
| Organizer.ScanStopped | src/file_organizer.py:277-279 | after the loop stops, later pages change nothing |
| Organizer.AnalyseBound | src/file_organizer.py:266-279 | the count is at most 23 keywords × 5 pages |
| Organizer.ScanStopsAtThreshold | src/file_organizer.py:264-281 | the loop stops below the threshold only where a page raised |
| Organizer.RecordsAreReadable | src/file_organizer.py:400-412 | every record the extractor's directory run produces has string or absent `CIF`, `FechaFactura`, `NumFactura`, provider name, `Trimestre` and `Año`, the fields the organizer reads |
| Organizer.PdfOrganizer.constructor | src/file_organizer.py:38-65 | the three destination folders under `procesados`, the given files and indices, an empty log |
| Organizer.PdfOrganizer.LoadIndex | src/file_organizer.py:80-101 | a missing or unreadable index is the empty index; otherwise the stored one |
| Organizer.PdfOrganizer.FindDuplicate | src/file_organizer.py:128-154 | a returned entry is in that quarter's index and is the same invoice |
| Organizer.PdfOrganizer.AddToIndex | src/file_organizer.py:238-249 | exactly one entry appended to that quarter; every other index, the files and the log unchanged |
| Organizer.PdfOrganizer.MovePdf | src/file_organizer.py:307-341 | succeeds iff the source exists; the file goes to the first free path among `name`, `stem_2.ext`, `stem_3.ext`…; nothing is overwritten |
| Organizer.PdfOrganizer.CountKeywords | src/file_organizer.py:272-274 | the keyword count of one page |
| Organizer.PdfOrganizer.AnalyseContent | src/file_organizer.py:251-284 | at most five pages, early stop at 3, `(count >= 3, count)`, `(False, 0)` when the PDF cannot be opened |
| Organizer.PdfOrganizer.LogOperation | src/file_organizer.py:343-367 | one line appended |
| Organizer.PdfOrganizer.OrganizeSuccess | src/file_organizer.py:392-467 | as written: the requested path is returned and indexed, even when it names a file that was already there; the file itself moves from the source to the first free path, no other file changes, one log line is appended and no other quarter's index changes |
| Organizer.PdfOrganizer.FileInvoice | src/file_organizer.py:392-467 | duplicates go to `duplicados/<año>/<trim>`, new invoices to `facturas/<año>/<mes>/<slug>`; after a move the file set is the old one without the source and with the returned path; only a moved new invoice is indexed, under its quarter alone; one log line is appended; the path returned and indexed is where the file went; the same invoice is a duplicate afterwards |
| Organizer.PdfOrganizer.ErrorRoute | src/file_organizer.py:479-491 | `sin_plantilla_posible_factura` iff the analysis says invoice, else `probablemente_no_factura` |
| Organizer.PdfOrganizer.OrganizeError | src/file_organizer.py:469-499 | as written: the requested path is returned after a move, while the file goes from the source to the first free path and no other file changes; indices untouched |
| Organizer.PdfOrganizer.FileError | src/file_organizer.py:469-499 | the error folder chosen by the analysis; after a move the file set is the old one without the source and with the returned path, and one log line is appended; the original path and nothing changed when the source is missing; indices untouched |
| Organizer.PdfOrganizer.Organize | src/file_organizer.py:369-390 | a non-empty record without a truthy `_Error` is filed as an invoice, anything else as an error; after a move the file set is the old one without the source and with the returned path, with the log line and index entry of the route taken; a file that does not exist leaves files, log and indices as they were |
| Export.OsJoin | src/excel_exporter.py:62 | `os.path.join`: the result ends with the file name; an absolute name replaces the directory |
| Export.Filtered | src/excel_exporter.py:42-46 | one record per record, each its standard columns |
| Export.FilteredColumns | src/excel_exporter.py:44 | a key is kept iff it does not start with `_`, with its value |
| Export.ColumnsPartition | src/excel_exporter.py:44 | a record is its standard columns plus its metadata columns, disjoint |
| Export.FilteredIdempotent | src/excel_exporter.py:42-46 | filtering twice is filtering once |
| Export.FilteredNoMetadata | src/excel_exporter.py:42-46 | records without metadata pass unchanged |
| Export.ExcelExporter.constructor | src/excel_exporter.py:17-30 | the records, the output directory and the timestamp |
| Export.ExcelExporter.FilterStandard | src/excel_exporter.py:32-46 | the filtered list; the input is a value and is left unchanged |
| Export.ExcelExporter.ExportPath | src/excel_exporter.py:58-62 | `ValueError("No hay datos para exportar")` iff there are no records; otherwise the joined path with the given or default name |
| Export.ExcelExporter.ExportRows | src/excel_exporter.py:58-67 | the rows written: `Err` on no data, the raw records for the debug workbook, the filtered ones otherwise |
| Export.ExcelExporter.ExportJson | src/excel_exporter.py:411-430 | `Err` on no data; otherwise the filtered records, with `total_facturas` equal to their number and version `1.0` |
| Export.ExcelExporter.ExportAll | src/excel_exporter.py:438-472 | with no data no path; otherwise exactly the keys of the four exports that do not raise (`failed` names those that do), each mapped to its path under the prefix, which defaults to `facturas_<timestamp>` |

## Left out

- The PDF library is not modelled. A page is the result of `extract_text()` on the page and on a crop box: text, `None`, or an exception.
- Directory listings, file reads, JSON parsing, directory creation, clocks and `print` are not modelled. They become parameters: names, parsed contents and timestamp strings.
- Letter case, digits and whitespace classes are the ASCII ones, plus Python's whitespace set. Python's `lower()`, `upper()`, `\d` and `int()` also accept other Unicode letters and digits.
- `calcular_hash_md5` is not modelled, and no index entry carries `hash_md5`.
- `tasa_exito` is not modelled, because it is a rounded float percentage. The similarity score is an exact ratio compared as `100·matches ≥ 85·length`, so no floating point is involved.
- JSON numbers are integers. Templates hold float crop coordinates, but crops are parameters of the model and a numeric CIF or provider name raises whatever its kind, so nothing observable depends on it.
- Key order of records and the rendering of workbooks, sheets and CSV files are not modelled.
- Index files are modelled as an index or as unreadable. A stored index without `facturas`, or with entries that lack keys, is not modelled.
- `guardar_indice` and `registrar_operacion` swallow `IOError`; the model always writes.
- Organizer.PdfOrganizer.MovePdf: paths are strings. `mkdir` and `shutil.move` fail only when the source is missing. `pathlib` normalisation beyond an empty path part is not modelled.
- Organizer.PdfOrganizer.Organize: requires the record fields the organizer reads to be strings or absent. On a number, list or object in those fields the source raises (`'-' in fecha` at src/file_organizer.py:170, `nombre.strip()` at line 506), and it treats null as empty (`""`, `"00"` or `Desconocido`); neither case is modelled. Every record the extractor produces meets the requirement (`Organizer.RecordsAreReadable`), so it holds wherever the organizer is given the extractor's results.
- Organizer.PdfOrganizer.Organize: uses the corrected routing methods, FileInvoice and FileError; the as-written versions are OrganizeSuccess and OrganizeError.
- The origin folder logged is the folder given. `Path(name).parent` of a bare name is `.` and is not modelled.
- Extractor.PdfExtractor.Summary: counts successes as the records with neither `_Error` nor a truthy `_Duplicado`. This is the corrected count; the source's `total - errores - duplicadas` is `Statistics.Summarize`.
- `__repr__` of the CIF is not modelled.
- `exportar_excel_formateado`'s sheet statistics are not modelled.
- Export.ExcelExporter.ExportAll: which exports raise (an I/O error, a cell value the workbook library refuses, such as a control character in a file name) is the parameter `failed`; the model does not derive it from the records or the file system, and the printed error message is not modelled.

## Findings

| source | as written | input that shows it | evidently intended | confidence | as-written member | corrected member |
|---|---|---|---|---|---|---|
| src/pdf_extractor.py:570-572 | `facturas_exitosas = total - con_error - duplicadas` subtracts a record that is both erroneous and duplicate twice | two records with `_Error`, the second with `_Duplicado: True` (a failed extraction repeating an earlier key) | successes are the records with neither mark, never negative | not executed | Statistics.NegativeSuccesses | Statistics.CorrectedSuccesses |
| src/file_organizer.py:431-464, 494-497 | after `mover_pdf` stores the file as `stem_2.ext` because the name was taken, `str(destino)` is returned and written to the index as `ruta_completa` | a new invoice `a.pdf` whose destination `…/a.pdf` already exists | the path returned and indexed is where the file was moved | not executed | Organizer.PdfOrganizer.OrganizeSuccess | Organizer.PdfOrganizer.FileInvoice |
