# Cleaning the merged open-data catalogue

`merge_data.py` merges the dataset listings scraped from Scottish open-data
portals into one table and then runs `clean_data` over it. This project
models that cleaning in Dafny. The cleaning is made of column passes:

- the owner-name renames;
- the upper-casing of the file type;
- `tidy_categories` on both tag columns;
- `combine_categories`, which fills `CombinedTags`;
- `assign_ODScategories`, which fills `ODSCategories` from a fixed table of
  sixteen categories and their keywords;
- `tidy_licence`, which looks the licence up in a table of twenty known keys;
- `tidy_file_type`, which looks the file type up in a table of twenty-one keys.

Each helper has a function that says what it returns. Where the source loops,
a method mirrors the loop and is proved to compute that function. Lemmas then
state what the results mean.

A pandas missing value is modelled as the text `"nan"`. That is how the
helpers that call `str(...)` on a cell see it: `tidy_categories`,
`combine_categories`, `tidy_licence` and `tidy_file_type`. The owner renames
and the upper-casing of the file type leave a missing value missing, and the
model keeps `"nan"` unchanged there. `assign_ODScategories` only ever sees
`CombinedTags`, which is never missing.

Modules, one per file:

- `PyStr` (`strings.dfy`): `lower`, `upper`, `strip`, `split` and `join`.
- `KeyLookup` (`lookup.dfy`): the normalise-and-compare loop shared by the
  licence and file-type lookups.
- `Tags` (`tags.dfy`): `tidy_categories` and `combine_categories`.
- `OdsCategories` (`categories.dfy`): the category table and
  `assign_ODScategories`.
- `Licences` (`licences.dfy`): `tidy_licence`.
- `FileTypes` (`filetypes.dfy`): `tidy_file_type` and the upper-casing pass.
- `Owners` (`owners.dfy`): the owner renames.
- `Cleaning` (`cleaning.dfy`): the table as an array of records, and the
  passes in the order `clean_data` runs them.

`CombinedTags` can hold an empty piece. A tidied missing field is `""`, not
`"nan"`, so `combine_categories` does not skip it and contributes its one
piece, the empty tag. For example, tags `"Cycling;Bus"` with no manual tags
combine to the pieces `"cycling"`, `"bus"` and `""`. The model shows this:

- `Tags.TidyCategoriesMissing` and `Tags.TidyCategoriesNotMissing` show the
  tidied field is never `"nan"`;
- `Cleaning.MissingTagsLeaveEmptyPiece` shows the empty tag reaches
  `CombinedTags`;
- `Cleaning.CyclingBusRecord` gives the worked example.

The category table has sixteen entries; the function's docstring speaks of
thirteen.

## Model

| member | source | states |
|---|---|---|
| Owners.RenameOwner | merge_data.py:151-165 | A known spelling becomes its canonical name. Any other owner is left unchanged. The result is never a spelling the table would rename again. |
| Owners.RenameOwnerIdempotent | merge_data.py:151-165 | Renaming twice is renaming once. |
| Tags.TidyCategories | merge_data.py:179-193 | Definition of `tidy_categories`: the kept pieces joined with ";", one trailing ";" removed. The lemmas below state what it returns. |
| Tags.TidyPiece | merge_data.py:187 | Definition of `cat.lower().strip()` on one piece. |
| Tags.DropNan | merge_data.py:189 | Definition of the "nan" filter. Every piece it keeps is not "nan" and comes from its input. |
| Tags.DropTrailingSemicolon | merge_data.py:190-192 | Definition of the removal of one trailing ";". |
| Tags.ReplaceCommas | merge_data.py:185 | Every "," becomes ";" and every other character is kept; the length is unchanged, and no "," is left. |
| Tags.TidyCategoriesPieces | merge_data.py:179-193 | The `;`-pieces of `tidy_categories(s)` are exactly the kept pieces: split, non-empty raw pieces lower-cased and stripped, "nan" dropped. The one exception is a trailing empty piece, which is cut by the final ";" removal when there are at least two pieces. Nothing kept gives `""`. |
| Tags.TidyCategoriesClean | merge_data.py:179-193 | Every piece of the output is lower-case, free of "," and ";", has no whitespace at either end, and is not "nan". |
| Tags.TidyCategoriesChars | merge_data.py:185-193 | The output contains no "," and no upper-case letter. |
| Tags.TidyCategoriesNotMissing | merge_data.py:179-193 | A tidied field is never "nan". |
| Tags.TidyCategoriesMissing | merge_data.py:185-193 | The missing value "nan" tidies to "". |
| Tags.TidyCategoriesNan | merge_data.py:187-190 | " NaN " tidies to "", because "nan" is dropped after lower-casing and stripping. |
| Tags.TidyCategoriesMixedDelimiters | merge_data.py:185-190 | "a,b;;c" tidies to "a;b;c": commas separate like semicolons, and a literally empty piece is dropped. |
| Tags.TidyCategoriesBlankPiece | merge_data.py:186-188 | "a; ;b" tidies to "a;;b": a whitespace-only piece passes the emptiness test and is kept as an empty piece. |
| Tags.TidyCategoriesCyclingBus | merge_data.py:185-193 | "Cycling;Bus" tidies to "cycling;bus". |
| Tags.TidyCategoriesEmpty | merge_data.py:185-193 | "" tidies to "". |
| Tags.JoinSet | merge_data.py:208 | Joining a set gives a string whose `;`-pieces are the set's elements, each exactly once, in an order callers cannot rely on. The empty set joins to "". |
| Tags.CombineCategories | merge_data.py:196-209 | Both fields missing give "". Otherwise the pieces of the result are the union of the two fields' pieces, each exactly once. A field's pieces are given by the definition `Tags.FieldPieces`: its `;`-pieces, or none when it is exactly "nan" (lines 202-205). |
| OdsCategories.MatchedCategories | merge_data.py:616-621 | Definition: the labels of the entries whose keyword list holds some `;`-piece of the tags. |
| OdsCategories.OdsLabels | merge_data.py:616-624 | Definition: the matched labels, or "Uncategorised" alone when none match. |
| OdsCategories.AssignCategories | merge_data.py:216-629 | For any table whose labels have no ";", the loop's result has as pieces exactly the labels of the entries some tag matches, or "Uncategorised" alone when none does, each exactly once. |
| OdsCategories.AssignOdsCategories | merge_data.py:216-629 | The same, for the source's table. |
| OdsCategories.NoMatchedCategories | merge_data.py:616-624 | Nothing matches exactly when no tag is in any keyword list. |
| OdsCategories.LabelsFallback | merge_data.py:616-624 | "Uncategorised" is the only label exactly when no tag is in any keyword list, and it never appears beside a category label. |
| OdsCategories.LabelMatch | merge_data.py:616-621 | In a well-formed table, entry i's label is assigned exactly when some tag is in entry i's keyword list. |
| OdsCategories.SingleTagLabel | merge_data.py:616-624 | For a single tag, entry i's label is assigned exactly when the tag is in entry i's keywords. A tag in any keyword list is never "Uncategorised". |
| OdsCategories.JoinedLabels | merge_data.py:616-629 | For a well-formed table: the result is never empty, names entry i exactly when a tag is in its keywords, and holds "Uncategorised" exactly when nothing matches. In that case the result is "Uncategorised" alone. |
| OdsCategories.AssignedLabels | merge_data.py:216-629 | The same, for the source's table. |
| OdsCategories.CategoryTableWellFormed | merge_data.py:225-613 | The source's table has sixteen entries with distinct labels, none of them "Uncategorised" and none containing ";". |
| OdsCategories.CategoryTableTagLabel | merge_data.py:225-624 | `SingleTagLabel` for the source's table. |
| OdsCategories.TransportKeywords | merge_data.py:457-593 | "parking" is a keyword of both "Housing and Estates" and "Transportation", and "cycling" is one of "Transportation". |
| OdsCategories.ParkingIsHousing | merge_data.py:457-469 | The tag "parking" is assigned "Housing and Estates" and is not "Uncategorised". |
| OdsCategories.ParkingIsTransport | merge_data.py:583-593 | The tag "parking" is also assigned "Transportation". |
| OdsCategories.CyclingIsTransport | merge_data.py:583-592 | The tag "cycling" is assigned "Transportation". |
| OdsCategories.CommercialWasteKeyword | merge_data.py:264 | Two adjacent literals form the single keyword "commercial land and propertycommercial waste". "commercial waste" is not a Business and Economy keyword. |
| OdsCategories.CommercialPropertyKeyword | merge_data.py:264 | "commercial land and property" is not a Business and Economy keyword either. |
| OdsCategories.CommercialWasteFoodKeyword | merge_data.py:356-393 | "commercial waste" is a Food and Environment keyword. |
| OdsCategories.CommercialWasteIsFood | merge_data.py:356-393 | The tag "commercial waste" is assigned "Food and Environment". |
| OdsCategories.UnmatchableKeywords | merge_data.py:307-549 | "FOI", "MPs", "MSPs", "GP" and " sports activities" are keywords that no tidied tag can equal. |
| KeyLookup.Normalise | merge_data.py:665 | Definition of `s.lower().strip(pad)`, the form both the input and each key are compared in (also line 710). |
| KeyLookup.Matches | merge_data.py:665 | Definition: the input and a key have equal normal forms (also line 710). |
| KeyLookup.FirstMatch | merge_data.py:664-666 | The lookup gives None exactly when no key matches. Some(v) means a key matches and v is its value. |
| KeyLookup.FirstMatchAt | merge_data.py:664-666 | The first matching key decides the result, whatever keys after it say. |
| KeyLookup.FirstMatchNormalForm | merge_data.py:664-666 | Inputs with the same lower-cased, stripped form get the same lookup result. |
| KeyLookup.LookUp | merge_data.py:664-666 | The loop with early return computes `FirstMatch`. |
| Licences.LicenceLabel | merge_data.py:636-672 | The result is a canonical licence name, "No licence", or a string that starts with the custom prefix. When no key matches, "nan" gives "No licence" and any other name gives "Custom licence: " followed by the name. |
| Licences.TidyLicence | merge_data.py:636-672 | The loop and fallback compute `LicenceLabel`. |
| Licences.LicenceLabelNormalForm | merge_data.py:664-666 | Names that differ only in case and surrounding spaces and slashes get the same result once one of them is known. |
| Licences.KeyLength | merge_data.py:641-662 | The length of each key's normal form. |
| Licences.ShortNameUnknown | merge_data.py:664-671 | No key normalises to fewer than four characters, so such a name falls back to "No licence" or the custom label. |
| Licences.NanLicence | merge_data.py:668-669 | A missing licence becomes "No licence". |
| Licences.EmptyLicence | merge_data.py:668-671 | "" is not missing: it becomes "Custom licence: " with nothing after it. |
| Licences.UkOglSpellings | merge_data.py:641-666 | Every spelling of "uk-ogl", in any case and padding, maps to Open Government Licence v3.0. |
| Licences.UkOglLicence | merge_data.py:641-666 | "UK-OGL" maps to Open Government Licence v3.0. |
| Licences.CcBy40Spellings | merge_data.py:641-666 | Every spelling of the Creative Commons 4.0 URL maps to Creative Commons Attribution 4.0 International. |
| Licences.CcBy40SlashLicence | merge_data.py:641-666 | The 4.0 URL with a trailing "/" maps to the same licence. |
| Licences.SameLengthKeys | merge_data.py:641-662 | Keys with normal forms of equal length come in exactly four pairs. |
| Licences.KeyNormalsDistinct | merge_data.py:641-662 | No two keys have the same normal form. |
| Licences.LicenceAnyMatch | merge_data.py:641-666 | A name that matches any key gets that key's canonical name, so the order of the table does not matter. |
| FileTypes.Unknown | merge_data.py:721 | The fallback neither starts nor ends with ".", " " or "/", and has no lower-case letter. |
| FileTypes.FileTypeLabel | merge_data.py:677-723 | The result is a canonical type name, "No file type", or the fallback. A match gives a canonical name. When nothing matches, "nan" and "" give "No file type" and anything else gives the stripped, upper-cased type. |
| FileTypes.TidyFileType | merge_data.py:677-723 | The loop and fallback compute `FileTypeLabel`. |
| FileTypes.FileTypeLabelNormalForm | merge_data.py:709-712 | Types that differ only in case and surrounding dots, spaces and slashes get the same result once one of them is known. |
| FileTypes.UnknownHead | merge_data.py:684-712 | A type whose normal form is empty, or starts with a letter no key starts with, matches no key. |
| FileTypes.UnknownFileType | merge_data.py:709-721 | Such a type takes the fallback. |
| FileTypes.NanFileType | merge_data.py:714-718 | "nan" becomes "No file type". |
| FileTypes.EmptyFileType | merge_data.py:714-718 | "" becomes "No file type". |
| FileTypes.PaddingOnlyFileType | merge_data.py:714-721 | ". /" is not empty, so it is not "No file type": it strips to "". |
| FileTypes.PdfFileType | merge_data.py:721 | ".pdf" becomes "PDF". |
| FileTypes.XlsxSpellings | merge_data.py:684-712 | Every spelling of "xlsx" is an MS EXCEL file. |
| FileTypes.UpperXlsxFileType | merge_data.py:684-712 | "XLSX" is an MS EXCEL file. |
| FileTypes.FileTypeKeyNormalsDistinct | merge_data.py:684-706 | No two keys of the file-type table have the same normal form. |
| FileTypes.FileTypeAnyMatch | merge_data.py:684-712 | A type that matches any key gets that key's canonical name, so the order of the table does not matter. |
| FileTypes.UpperCell | merge_data.py:174 | A missing file type stays missing. Any other is upper-cased character by character: it keeps its length and has no lower-case letter left. |
| FileTypes.UpperCellNoEffect | merge_data.py:174 | Under ASCII case mapping, the upper-casing pass changes no result of `tidy_file_type`. |
| Cleaning.Cleaned | merge_data.py:151-726 | Definition of the per-row result of `clean_data`: owner renamed, tag fields tidied, combined tags from the tidied fields, categories from the combined tags, licence and file type canonicalised, other columns unchanged. |
| Cleaning.Apply | merge_data.py:165 | A per-value pass rewrites every row with the same function, in place. |
| Cleaning.CombineTagColumns | merge_data.py:211-213 | Every row gets combined tags built from its two tag fields, and nothing else changes. |
| Cleaning.AssignCategoryColumn | merge_data.py:632 | Every row gets categories assigned from its combined tags, and nothing else changes. |
| Cleaning.PrepareColumns | merge_data.py:165-212 | The owner, upper-casing and two tag-tidying passes. |
| Cleaning.CanonicaliseColumns | merge_data.py:674-726 | The licence and file-type passes. |
| Cleaning.PassesClean | merge_data.py:165-726 | The passes, run in the source's order, compose to `Cleaned`. |
| Cleaning.CleanData | merge_data.py:138-728 | Every row ends up `Cleaned` from its original: owner renamed, tags tidied and combined, categories assigned, licence and file type canonicalised, other columns unchanged. |
| Cleaning.CleanedTags | merge_data.py:179-213 | In a cleaned row, the combined pieces are exactly the pieces of the two tidied fields, each once, and every one is a tidy piece. |
| Cleaning.CleanedRecord | merge_data.py:151-726 | In a cleaned row: the owner is canonical; the file type is what `tidy_file_type` alone makes of the original (under ASCII case mapping); the categories are non-empty, name a category exactly when a combined tag is among its keywords, and are "Uncategorised" alone or not at all. |
| Cleaning.MissingTagsLeaveEmptyPiece | merge_data.py:179-213 | If either original tag field is missing, the empty tag is among the combined tags. |
| Cleaning.CyclingBusRecord | merge_data.py:179-632 | Tags "Cycling;Bus" with no manual tags combine to the pieces "cycling", "bus" and "", and the row is categorised as Transportation. |

## Left out

- The reading and writing of files, and the merge of the scraped listings in
  `merge_data`, are not part of this model. It starts from the merged table.
- The date columns are left out. `clean_data` parses `DateCreated` and
  `DateUpdated` with `pd.to_datetime`, which is date arithmetic in pandas and
  is not modelled.
- The dummy `AssetStatus` column is left out; it is always `None`.
- The table is modelled as records holding the columns the cleaning reads or
  writes. A pandas frame's index and dtypes are not modelled.
- `lower()` and `upper()` change ASCII letters only. Python also maps
  non-ASCII letters. `strip()` with no argument removes the characters Python's
  `isspace` accepts.
- FileTypes.UpperCellNoEffect: holds only under ASCII case mapping, and so
  does the file-type clause of `Cleaning.CleanedRecord`. With Python's full
  case mapping the upper-casing pass can change the result. For example,
  "ıcs" (dotless i) lower-cases to itself, matches no key and gives "ICS".
  Upper-cased first it becomes "ICS", which matches the key "ics" and gives
  "iCalendar". "icſ" (long s) behaves the same way.
- Tags.JoinSet: the order of a joined set is Python's hash order. The model
  leaves it open: callers see only which pieces occur and that each occurs
  once. The method requires that no element contains the separator, which
  holds at both places the source joins a set.
- Every other pandas value that reaches the helpers as something other than
  "nan" through `str(...)` (numbers, `None`) is not modelled. Cells are
  strings.
