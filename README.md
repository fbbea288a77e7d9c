# WAConnect-Pro link generator, modelled in Dafny

WAConnect-Pro turns a spreadsheet of contacts into WhatsApp click-to-chat
links. Its core is the class `WhatsAppLinkGenerator` in `whatsapp_generator.py`.
Once a table is loaded, the generator:

- finds the phone, e-mail and name columns, first by the column names and
  then by sampling cell values;
- normalises Bangladeshi phone numbers to `+8801…`;
- cleans up the message text;
- adds a `https://wa.me/<phone>?text=<message>` link to every row, plus two
  status columns.

An older script, `Arch/generate_links.py`, builds links with a different
phone cleaner and a greeting that names the customer. The web front end
(`app.py`) accepts an upload only when the file name has a spreadsheet
extension.

The project has one module per concern:

| module | file | models |
|---|---|---|
| `Cells` | cells.dfy | a table cell: missing (`None`, NaN, NaT or `pd.NA`), a string, or another value carried as its `str(x)` and its truth value |
| `Chars` | chars.dfy | digits, ASCII case mapping, Python whitespace, `strip` |
| `Phone` | phone.dfy | `normalize_phone` |
| `LegacyLinks` | legacy_links.dfy | `clean_phone` and `generate_link` |
| `Utf8`, `Percent` | utf8.dfy, percent.dfy | `urllib.parse.quote` and the `unquote` that reverses it |
| `TextNorm` | text_norm.dfy | `normalize_text` |
| `Vocabulary` | vocabulary.dfy | the column-name patterns, with `\b` word boundaries and the `.?` gap |
| `Columns` | columns.dfy | `identify_columns`, as functions and as the imperative scan |
| `Links` | links.dfy | `generate_whatsapp_links`, and the reader that every built link is proved to read back through |
| `Frames` | frames.dfy | the DataFrame operations used: `df[c]` and `df[c] = v` on a `Frame` class updated in place |
| `Pipeline` | pipeline.dfy | `process_data` on a loaded table |
| `Upload` | upload.dfy | `allowed_file` |

`Wrappers` (wrappers.dfy) holds `Option` and `Result`.

The link builders are proved against `Links.ParseLink`, which splits a link
at its last `?` and percent-decodes the `text=` value. Every link the
generator writes reads back as the normalised phone and the message. The
imperative members (`Columns.IdentifyColumns`, `Links.GenerateWhatsAppLinks`,
`Pipeline.ProcessData`, `Frames.Frame.Assign`) are proved equal to the
functions that state what they compute. The lemmas state the properties of
those functions.

Where the code and the behaviour a reader might expect differ, the model
follows the code:

- `normalize_phone("123456")` returns `"123456"` (whatsapp_generator.py:66).
  test_phone_logic.py:28-32 expects a `+880` prefix; see
  `Phone.ShortNumberExample`.
- The content fallback does not skip columns that already have a role, so
  one column can become both the phone and the e-mail column.
- A leading `Contact` column becomes the phone column and never the name
  column, although `contact` is in both vocabularies.

## Model

| member | source | states |
|---|---|---|
| Chars.Digits | whatsapp_generator.py:53 | The result holds only digits and is no longer than the input. It holds exactly the digits that occur in the input (`Chars.DigitsKeep`). Digits of a concatenation are the two digit strings one after the other (`Chars.DigitsConcat`), and a digit string is its own digits (`Chars.DigitsOfDigits`). |
| Chars.DigitsKeep | whatsapp_generator.py:53 | The digits kept are exactly the digits that occur in the input. |
| Chars.Strip | whatsapp_generator.py:43-45 | `strip()`; characterised by `Chars.StripEnds` (no whitespace at either end) and `Chars.StripKeeps` (every non-space character kept). |
| Phone.NormalizePhoneText | whatsapp_generator.py:52-66 | When the digits of the input match one of the three Bangladesh forms, the result is `+8801` and nine digits, and those are the last nine digits of the input. Otherwise the input string is returned unchanged, separators included. |
| Phone.NormalizePhone | whatsapp_generator.py:47-66 | `None` is normalised as the empty string. Any other cell, NaN, NaT and `pd.NA` included, is normalised as its `str(x)` text: when its digits match a rule the result is `+8801` and the last nine digits, and otherwise the text itself is returned. |
| Phone.MissingMarkerKept | whatsapp_generator.py:49-66 | A NaN, NaT or `pd.NA` value is returned as its `str(x)` (`"nan"`, `"NaT"`, `"<NA>"`), not as the empty string. |
| Phone.CanonicalIsFixed | whatsapp_generator.py:59-61 | A number already in the form `+8801` plus nine digits normalises to itself. |
| Phone.NormalizeIdempotent | whatsapp_generator.py:53-66 | Normalising twice gives the same result as normalising once. |
| Phone.PrefixedSubscriber | whatsapp_generator.py:53-64 | A nine-digit subscriber number written straight after `01`, `8801` or `1` gives `+8801` and that number. |
| Phone.SameSubscriber | whatsapp_generator.py:53-64 | `01…`, `8801…` and `1…` spellings of one nine-digit subscriber number all give `+8801` and that number, whatever the separators. |
| Phone.NationalExample | test_phone_logic.py:9-14 | `01712345678` gives `+8801712345678`. |
| Phone.CountryCodeExample | test_phone_logic.py:16-20 | `8801712345678` gives `+8801712345678`. |
| Phone.PlusCountryCodeExample | test_phone_logic.py:22-26 | `+8801712345678` is unchanged. |
| Phone.ShortNumberExample | whatsapp_generator.py:66 | `123456` matches no rule and comes back as `123456`, without `+880`. |
| LegacyLinks.CleanPhone | Arch/generate_links.py:4-17 | The result is digits only and never has `+`. Digits starting `88` are kept whatever their length. Digits starting `01` get `88`, whatever their length. Exactly ten digits starting `1` get `880`. Any other digits are returned bare. |
| LegacyLinks.CleanPhoneIdempotent | Arch/generate_links.py:10-17 | Cleaning a cleaned number changes nothing. |
| LegacyLinks.GenerateLink | Arch/generate_links.py:19-25 | The link is empty exactly when the phone or the SMS cell is missing. |
| LegacyLinks.Greeting | Arch/generate_links.py:31 | The greeting message; characterised by `LegacyLinks.GenerateLinkDecodes`, which reads it back from the link. |
| LegacyLinks.GenerateLinkDecodes | Arch/generate_links.py:27-34 | A row with a phone and an SMS gives a link that reads back as the cleaned phone. Its text is the greeting with the customer name (or "" when the name is missing), a blank line, then the SMS. |
| Utf8.EncodeChar | whatsapp_generator.py:149 | A code point takes one to four bytes, and one byte exactly when it is ASCII. |
| Utf8.DecodeFirstEncodeChar | whatsapp_generator.py:149 | The strict decoder reads back the code point the encoder wrote, whatever bytes follow it. |
| Utf8.DecodeEncode | whatsapp_generator.py:149 | Decoding the UTF-8 encoding of any string gives back that string. |
| Percent.QuoteBytes | whatsapp_generator.py:149 | Encoded bytes produce only unreserved characters, `/` and `%`. |
| Percent.Quote | whatsapp_generator.py:149 | The encoded message has only unreserved characters, `/` and `%`. It has no space, `?`, `&`, `=` or `#`, so it cannot end or split the query parameter. |
| Percent.HexValueOfDigit | whatsapp_generator.py:149 | Every hex digit `quote` writes is read back as its value. |
| Percent.PercentDecodeQuoteBytes | whatsapp_generator.py:149 | Percent-decoding the encoding of any byte sequence gives back those bytes. |
| Percent.UnquoteQuote | whatsapp_generator.py:149 | `unquote(quote(s)) == s` for every string. |
| TextNorm.NormalizeText | whatsapp_generator.py:28-31 | A value that is not a string is returned unchanged. A string becomes the normalised string. |
| TextNorm.NormalizeString | whatsapp_generator.py:33-45 | `normalize_text` on a string; characterised by `TextNorm.NormalizeStringSpaces` and `TextNorm.NormalizeKeepsDots`. |
| TextNorm.WordsOfJoin | whatsapp_generator.py:40 | Splitting on whitespace a space-joined list of non-empty words without whitespace gives back those words. |
| TextNorm.CollapseIsCollapsed | whatsapp_generator.py:40 | After `' '.join(text.split())`, every whitespace character is a single plain space between two non-space characters. |
| TextNorm.CollapseKeepsText | whatsapp_generator.py:40 | Collapsing whitespace keeps every non-space character, in order. |
| TextNorm.CollapseIdempotent | whatsapp_generator.py:40 | Collapsing whitespace twice gives the same result as collapsing once. |
| TextNorm.CollapseKeepsCount | whatsapp_generator.py:40 | Collapsing whitespace keeps the number of each non-space character. |
| TextNorm.SplitRoundTrip | whatsapp_generator.py:43 | Joining `text.split(sep)` with `sep` gives back the text, and there is one more part than there are separators. |
| TextNorm.JoinCount | whatsapp_generator.py:43 | Joining parts with a separator that holds a character once, when no part holds it, gives one fewer occurrence than there are parts. |
| TextNorm.Capitalize | whatsapp_generator.py:43 | `capitalize()` keeps the length and the lower-cased text. The first character is not lower-case and no later one is upper-case. Spaces and dots stay where they were. |
| TextNorm.SentencesKeepDots | whatsapp_generator.py:43 | Stripping and capitalising dot-free fragments adds no dot. |
| TextNorm.NormalizeKeepsDots | whatsapp_generator.py:40-45 | `normalize_text` keeps the number of `.` in the unescaped, NFKC-normalised text. |
| TextNorm.JoinedSentencesSpaces | whatsapp_generator.py:43 | Capitalised sentences of text with only plain spaces, joined with `". "`, hold no other whitespace. |
| TextNorm.NormalizeStringSpaces | whatsapp_generator.py:40-45 | The normalised text has no whitespace other than plain spaces, and none at either end. |
| Vocabulary.MatchesFromIsSlice | whatsapp_generator.py:16-24 | The character-by-character match of a token is the slice comparison. |
| Vocabulary.HasWordMeans | whatsapp_generator.py:16-24 | A token is found in a column name exactly when it occurs there with no word character directly before or after it. |
| Vocabulary.ContactInBoth | whatsapp_generator.py:16-24 | `contact` matches the phone and name patterns and not the e-mail one. |
| Vocabulary.HotelHasNoTel | whatsapp_generator.py:20 | `hotel` does not match the phone pattern: `tel` inside a word does not count. |
| Vocabulary.UsernameHasNoName | whatsapp_generator.py:16 | `username` does not match the name pattern. |
| Vocabulary.GapExamples | whatsapp_generator.py:16-24 | `e-mail`, `first name` and `first_name` match through the one-character gap. |
| Vocabulary.NoWordFromWithout | whatsapp_generator.py:16-24 | A token holding a character the name lacks is never found. |
| Vocabulary.NoGapWordFromWithout | whatsapp_generator.py:16-24 | The same holds for the two-part tokens with a gap. |
| Vocabulary.NoPhoneWords | whatsapp_generator.py:20 | A name without `p`, `b`, `c` and `t` never matches the phone pattern. |
| Vocabulary.NoEmailWords | whatsapp_generator.py:24 | A name without `a` never matches the e-mail pattern. |
| Vocabulary.NoNameWords | whatsapp_generator.py:16 | A name without `a` and `p` never matches the name pattern. |
| Vocabulary.NoNameWordsWithoutN | whatsapp_generator.py:16 | A name without `n` never matches the name pattern. |
| Vocabulary.NameHeader | whatsapp_generator.py:16-24 | The header `name` matches only the name pattern. |
| Vocabulary.MobileHeader | whatsapp_generator.py:16-24 | The header `mobile no` matches only the phone pattern. |
| Vocabulary.EmailHeader | whatsapp_generator.py:16-24 | The header `e-mail` matches only the e-mail pattern. |
| Vocabulary.SmsHeader | whatsapp_generator.py:16-24 | The header `sms` matches no pattern. |
| Vocabulary.PhoneVocabulary | whatsapp_generator.py:20 | The phone pattern; characterised by `Vocabulary.HasWordMeans` and the header lemmas. |
| Vocabulary.EmailVocabulary | whatsapp_generator.py:24 | The e-mail pattern; characterised likewise. |
| Vocabulary.NameVocabulary | whatsapp_generator.py:16 | The name pattern; characterised likewise. |
| Columns.FirstSuggesting | whatsapp_generator.py:75-83 | The result is the leftmost column from the start position whose name matches the role and that is not already taken. None means there is no such column. |
| Columns.NamePass | whatsapp_generator.py:75-83 | The name pass gives each column at most one role. Phone and e-mail never share a column, and the name column is neither of them. |
| Columns.NonNull | whatsapp_generator.py:89 | No kept cell is missing. A column without missing cells comes back unchanged. The result is never longer than the column. |
| Columns.NonNullKeeps | whatsapp_generator.py:89 | A cell is kept exactly when it occurs in the column and is not missing. |
| Columns.NonNullConcat | whatsapp_generator.py:89 | `dropna()` of two stretches of a column is the two results one after the other, so the order of the cells is kept. |
| Columns.NonNullIndex | whatsapp_generator.py:89 | The `p`-th kept cell is a present cell of the column with exactly `p` present cells above it. |
| Columns.AnySampleMeans | whatsapp_generator.py:89-90 | A column has a fitting sample exactly when one of its present cells fits and fewer than five present cells are above it. The pass looks at the first five present values and nothing else. |
| Columns.FirstSampled | whatsapp_generator.py:87-96 | The result is the leftmost column with a matching sample. None means no column has one. |
| Columns.DetectPositions | whatsapp_generator.py:68-98 | The roles `identify_columns` assigns; characterised by `Columns.PhoneByNameWins`, `Columns.PhoneBySamples`, `Columns.NameOnlyByName` and `Columns.OneColumnTwoRoles`. |
| Columns.ScanNames | whatsapp_generator.py:70-83 | The loop over the column names, with its once-set guards and its if/elif chain, returns the names that the name pass chooses. |
| Columns.ScanSamples | whatsapp_generator.py:86-96 | The content loop keeps a role that is already set. A missing phone or e-mail role goes to the leftmost column with a matching sample. |
| Columns.IdentifyColumns | whatsapp_generator.py:68-98 | The method returns the detection that the two passes specify. |
| Columns.PhoneByNameWins | whatsapp_generator.py:75-79 | The leftmost column whose name matches the phone pattern is the phone column, whatever the data. |
| Columns.PhoneBySamples | whatsapp_generator.py:86-91 | Without a phone-named column, the phone column is the leftmost one with a phone-like sample, and there is none when no column has one. |
| Columns.NameOnlyByName | whatsapp_generator.py:82-83 | The content pass never sets the name column. The name column matches the name pattern and holds no other role. Every earlier column matching the name pattern took the phone or e-mail role. |
| Columns.LeadingContactIsPhone | whatsapp_generator.py:78-83 | A first column named `Contact`, in any case, is the phone column and never the name column. |
| Columns.LoneValueSample | whatsapp_generator.py:89-90 | A one-cell column samples exactly that cell. |
| Columns.OneColumnTwoRoles | whatsapp_generator.py:86-96 | In a single `Contact` column holding an e-mail-like value, that column becomes both the phone and the e-mail column, and there is no name column. |
| Columns.ContactSheetExample | whatsapp_generator.py:68-98 | Headers `Name`, `Mobile No`, `E-mail` and a fourth column give phone `Mobile No`, e-mail `E-mail` and name `Name`, whatever the data. |
| Links.LinkFor | whatsapp_generator.py:144-153 | One row's entry; characterised by `Links.LinkForMeans`. |
| Links.ParseLinkOf | whatsapp_generator.py:150 | A link whose encoded text has no `?` reads back as its recipient exactly when the text decodes. |
| Links.ParseBuiltLink | whatsapp_generator.py:149-150 | A link built from any recipient and message reads back as that recipient and message. |
| Links.LinkForMeans | whatsapp_generator.py:144-153 | A row's entry is "" exactly when its phone cell is missing or falsy. Otherwise the entry reads back as the normalised phone and the unchanged message. |
| Links.RowLink | whatsapp_generator.py:144-153 | The loop body for one row computes that row's link, `""` for a falsy cell. |
| Links.MapCellsIndex | whatsapp_generator.py:141-155 | The list that the loop builds by appending one entry per row holds, at row `i`, the entry for row `i`. |
| Links.GenerateWhatsAppLinks | whatsapp_generator.py:139-155 | There is one entry per row, in row order, and each is the link of its row's phone cell. |
| Links.LinksCarryMessage | whatsapp_generator.py:144-151 | Every link of a column carries the message. Its recipient is canonical whenever the phone's digits match a rule. |
| Frames.WithColumnMeans | whatsapp_generator.py:179-181 | `df[c] = v` keeps the table well formed and its height. Afterwards `df[c]` is `v`, every other column is unchanged, and the column order is kept, with `c` added last when it is new. |
| Frames.Frame.Assign | whatsapp_generator.py:179-181 | The in-place assignment leaves the frame holding the table `WithColumn` describes. |
| Pipeline.NormalizeNames | whatsapp_generator.py:173 | The rewritten name column has one cell per row. A cell is missing exactly when it was before. A present cell becomes a string with only plain spaces, none at either end. |
| Pipeline.NormalizeNameMeans | whatsapp_generator.py:173 | A name cell is missing after the rewrite exactly when it was missing before. Otherwise it becomes a string with only plain spaces and none at either end. |
| Pipeline.Outcome | whatsapp_generator.py:166-169 | The exception or the detection; characterised by `Pipeline.FailsWithoutPhone`. |
| Pipeline.Processed | whatsapp_generator.py:172-181 | The processed table is well formed and keeps the height; characterised by `Pipeline.ProcessedColumns`, `Pipeline.ProcessedKeeps`, `Pipeline.ProcessedNamesAndStatus` and `Pipeline.ProcessedLinks`. |
| Pipeline.DetectFindsColumns | whatsapp_generator.py:166 | Every detected column is one of the table's columns. |
| Pipeline.FailsWithoutPhone | whatsapp_generator.py:166-169 | Processing fails, with the exception's message, exactly when no column name matches the phone pattern and no column has a phone-like sample. |
| Pipeline.Appended | whatsapp_generator.py:179-181 | Adding a column keeps the existing ones in front, and the new list has exactly the old names plus the new one. |
| Pipeline.StatusColumns | whatsapp_generator.py:180-181 | `WhatsApp Sent` is "No" in every row. `Email Sent` is "No" in every row when an e-mail column was found, and "N/A" otherwise. |
| Pipeline.StatusKeeps | whatsapp_generator.py:180-181 | The status columns change no other column and are added last when new. |
| Pipeline.LinksKeep | whatsapp_generator.py:179 | The link column changes no other column and is added last when new. |
| Pipeline.ProcessedColumns | whatsapp_generator.py:172-181 | The result keeps the original columns in order, followed by whichever of `WhatsApp Link`, `WhatsApp Sent` and `Email Sent` it did not already have. |
| Pipeline.ProcessedKeeps | whatsapp_generator.py:172-181 | Every column other than the name column and the three added ones keeps its cells. |
| Pipeline.ProcessedNamesAndStatus | whatsapp_generator.py:172-181 | The name column holds each name rewritten, and the two status columns hold their defaults. |
| Pipeline.ProcessedLinks | whatsapp_generator.py:172-179 | In each row, the link column is "" exactly when the phone cell is falsy. Otherwise it reads back as the normalised phone and the normalised message. The phone cells are the original ones unless the phone column is also the name column. |
| Pipeline.RewriteNames | whatsapp_generator.py:172-173 | The frame afterwards holds the table with its name column rewritten. |
| Pipeline.AddLinks | whatsapp_generator.py:176-179 | The frame afterwards holds the table with the link column from `GenerateWhatsAppLinks`. |
| Pipeline.AddStatus | whatsapp_generator.py:180-181 | The frame afterwards holds the table with the two status columns. |
| Pipeline.ProcessData | whatsapp_generator.py:157-183 | The method returns the detection, or the exception when there is no phone column, in which case the frame is unchanged. On success the frame is the processed table. |
| Upload.AllowedFile | app.py:14-16 | `allowed_file`; characterised by `Upload.AllowedFileEndsWith`, `Upload.AllowedFileMeans` and `Upload.AllowedFileIgnoresCase`. |
| Upload.AllowedFileEndsWith | app.py:14-16 | A name is accepted exactly when it ends in a dot followed by `csv`, `xlsx` or `xls`, in any case. |
| Upload.AfterLast | app.py:16 | The result is the text after the last occurrence of the character, or the whole string when it does not occur. |
| Chars.LastIndex | app.py:16 | The split point of `rsplit(c, 1)`: the position holds `c` and no `c` follows it. None means `c` does not occur. |
| Upload.AllowedFileMeans | app.py:16 | A name with a dot is accepted exactly when the part after its last dot, lower-cased, is `csv`, `xlsx` or `xls`, whatever precedes that dot. |
| Upload.AllowedFileIgnoresCase | app.py:16 | A name is accepted exactly when its lower-cased form is. |
| Upload.TarballOfCsv | app.py:16 | `report.tar.csv` is accepted. |
| Upload.UpperCaseExtension | app.py:16 | `DATA.XLSX` is accepted. |
| Upload.OnlyLastExtensionCounts | app.py:16 | `notes.csv.exe` is rejected. |
| Upload.TrailingDot | app.py:16 | `contacts.` is rejected. |

## Left out

- Loading the table is not modelled: `process_file` (local files, direct URLs, Google Sheets through `requests`). `Pipeline.ProcessData` starts from the loaded frame.
- `save_to_excel` is not modelled, nor the workbook styling and hyperlinks. They are file output only.
- The Flask routes, temporary files and downloads in app.py, and the WSGI entry in api/index.py, are not modelled. They are web glue around the generator.
- The inspection scripts in Arch/ and the top-level loop of Arch/generate_links.py (lines 36-50) are not modelled. They only read and print or write files.
- `html.unescape` and `unicodedata.normalize('NFKC', ·)` are parameters (`TextNorm.UnicodeTables`), because their entity and Unicode tables are outside the model. Properties of `normalize_text` are stated about the text those two return.
- The value patterns `phone_pattern` and `email_pattern` (whatsapp_generator.py:13-14) are parameters (`Columns.ValuePatterns`), not a regex engine. The column-name patterns at lines 16-24 are modelled exactly.
- Character classes are ASCII: `\d`, `isdigit`, `\w` and case mapping cover only ASCII letters and digits. Python also accepts other Unicode digits and letters there. Whitespace for `split()` and `strip()` is Python's full set.
- TextNorm.Capitalize: maps case for ASCII letters only, and upper-cases rather than title-cases the first character, because Unicode case tables are outside the model.
- Percent.Unquote: models Python's `unquote` only on ASCII input and only where the escapes spell valid UTF-8. Elsewhere it returns None, where Python substitutes U+FFFD, because only the round trip of `quote` is needed.
- Pandas value types are reduced to `Cells.Cell`: a missing value is one of `None`, NaN, NaT and `pd.NA`, and any other non-string value is carried as its `str(x)` text and its truth value. How pandas renders a float as text (`1712345678.0`) is not modelled.
- Duplicate column names are not modelled: `Frames.WellFormed` asks for distinct names.
- Pandas raises an error when an assigned column has the wrong length. That case cannot arise here, because every assignment in `process_data` has the table's height.
- `generate_link(row)` looks up the fixed columns `Phone (Billing)`, `SMS` and `Customer Name` and raises `KeyError` when one is absent. `LegacyLinks.GenerateLink` takes the three cells directly, so that lookup and its error are not modelled.
- A Python string can hold a lone surrogate, and `quote` then raises `UnicodeEncodeError`. A Dafny `char` cannot hold one, so that error path is not modelled.
- Column labels are strings. `str(col)` of a non-string label is not modelled.
- `normalize_text` on a non-string message is not modelled: the message is a string.
- Pipeline.ProcessedNamesAndStatus: says nothing about the name column when the detected name column is one of the three added columns. The added columns would then overwrite it.
