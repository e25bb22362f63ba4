/** `clean_data`: the passes that overwrite the columns of the merged table
    one after another. A table is an array of records; each pass rewrites
    every record in place. */
module Cleaning {
  import opened PyStr
  import opened Tags
  import opened OdsCategories
  import opened Owners
  import Licences
  import FileTypes

  /** One row of the merged table: the columns the cleaning rewrites, and
      the text columns it carries through. A missing value is "nan". */
  datatype Record = Record(
    title: string,
    owner: string,
    description: string,
    pageUrl: string,
    source: string,
    originalTags: string,
    manualTags: string,
    combinedTags: string,
    odsCategories: string,
    license: string,
    fileType: string)

  /** `Series.apply` (and `Series.replace`) of a per-value function: every row
      is rewritten by `f`, in place. */
  method Apply(rows: array<Record>, f: Record -> Record)
    modifies rows
    ensures forall i :: 0 <= i < rows.Length ==> rows[i] == f(old(rows[i]))
  {
    for i := 0 to rows.Length
      invariant forall j :: 0 <= j < i ==> rows[j] == f(old(rows[j]))
      invariant forall j :: i <= j < rows.Length ==> rows[j] == old(rows[j])
    {
      rows[i] := f(rows[i]);
    }
  }

  /** Row `after` is row `before` with the combined tags set from its two
      tag fields. */
  ghost predicate TagsCombined(before: Record, after: Record)
  {
    && after == before.(combinedTags := after.combinedTags)
    && CombinedFrom(before.originalTags, before.manualTags, after.combinedTags)
  }

  /** `data["CombinedTags"] = data.apply(combine_categories, axis=1)`. */
  method CombineTagColumns(rows: array<Record>)
    modifies rows
    ensures forall i :: 0 <= i < rows.Length ==> TagsCombined(old(rows[i]), rows[i])
  {
    for i := 0 to rows.Length
      invariant forall j :: 0 <= j < i ==> TagsCombined(old(rows[j]), rows[j])
      invariant forall j :: i <= j < rows.Length ==> rows[j] == old(rows[j])
    {
      var combined := CombineCategories(rows[i].originalTags, rows[i].manualTags);
      rows[i] := rows[i].(combinedTags := combined);
    }
  }

  /** Row `after` is row `before` with the categories assigned from its
      combined tags. */
  ghost predicate CategoriesAssigned(before: Record, after: Record)
  {
    && after == before.(odsCategories := after.odsCategories)
    && LabelsJoined(before.combinedTags, CategoryTable, after.odsCategories)
  }

  /** `data["ODSCategories"] = data["CombinedTags"].apply(assign_ODScategories)`. */
  method AssignCategoryColumn(rows: array<Record>)
    modifies rows
    ensures forall i :: 0 <= i < rows.Length ==> CategoriesAssigned(old(rows[i]), rows[i])
  {
    for i := 0 to rows.Length
      invariant forall j :: 0 <= j < i ==> CategoriesAssigned(old(rows[j]), rows[j])
      invariant forall j :: i <= j < rows.Length ==> rows[j] == old(rows[j])
    {
      var labels := AssignOdsCategories(rows[i].combinedTags);
      rows[i] := rows[i].(odsCategories := labels);
    }
  }

  /** What the cleaning makes of one row: owner renamed, tag fields tidied,
      combined tags the union of the tidied fields, categories assigned from
      the combined tags, licence and file type canonicalised; the other
      columns unchanged. */
  ghost predicate Cleaned(before: Record, after: Record)
  {
    && after.title == before.title
    && after.description == before.description
    && after.pageUrl == before.pageUrl
    && after.source == before.source
    && after.owner == RenameOwner(before.owner)
    && after.originalTags == TidyCategories(before.originalTags)
    && after.manualTags == TidyCategories(before.manualTags)
    && CombinedFrom(after.originalTags, after.manualTags, after.combinedTags)
    && LabelsJoined(after.combinedTags, CategoryTable, after.odsCategories)
    && after.license == Licences.LicenceLabel(before.license)
    && after.fileType == FileTypes.FileTypeLabel(FileTypes.UpperCell(before.fileType))
  }

  /** The passes before the tags are combined: owner renamed, file type
      upper-cased, both tag fields tidied. */
  function Prepared(r: Record): Record
  {
    r.(owner := RenameOwner(r.owner),
       fileType := FileTypes.UpperCell(r.fileType),
       originalTags := TidyCategories(r.originalTags),
       manualTags := TidyCategories(r.manualTags))
  }

  /** The passes after the categories are assigned: licence and file type
      canonicalised. */
  function Canonicalised(r: Record): Record
  {
    r.(license := Licences.LicenceLabel(r.license),
       fileType := FileTypes.FileTypeLabel(r.fileType))
  }

  /** The passes compose to `Cleaned`. */
  lemma PassesClean(r0: Record, r6: Record, r7: Record, r8: Record)
    requires TagsCombined(Prepared(r0), r6) && CategoriesAssigned(r6, r7)
    requires r8 == Canonicalised(r7)
    ensures Cleaned(r0, r8)
  {
  }

  /** `clean_data(data)`, without the date columns: the column passes in the
      order the source runs them. */
  method CleanData(rows: array<Record>)
    modifies rows
    ensures forall i :: 0 <= i < rows.Length ==> Cleaned(old(rows[i]), rows[i])
  {
    ghost var r0 := rows[..];
    PrepareColumns(rows);
    CombineTagColumns(rows);
    ghost var r6 := rows[..];
    AssignCategoryColumn(rows);
    ghost var r7 := rows[..];
    CanonicaliseColumns(rows);
    forall i | 0 <= i < rows.Length ensures Cleaned(r0[i], rows[i]) {
      PassesClean(r0[i], r6[i], r7[i], rows[i]);
    }
  }

  /** The owner, upper-casing and tag-tidying passes. */
  method PrepareColumns(rows: array<Record>)
    modifies rows
    ensures forall i :: 0 <= i < rows.Length ==> rows[i] == Prepared(old(rows[i]))
  {
    Apply(rows, (r: Record) => r.(owner := RenameOwner(r.owner)));
    Apply(rows, (r: Record) => r.(fileType := FileTypes.UpperCell(r.fileType)));
    Apply(rows, (r: Record) => r.(originalTags := TidyCategories(r.originalTags)));
    Apply(rows, (r: Record) => r.(manualTags := TidyCategories(r.manualTags)));
  }

  /** The licence and file-type passes. */
  method CanonicaliseColumns(rows: array<Record>)
    modifies rows
    ensures forall i :: 0 <= i < rows.Length ==> rows[i] == Canonicalised(old(rows[i]))
  {
    Apply(rows, (r: Record) => r.(license := Licences.LicenceLabel(r.license)));
    Apply(rows, (r: Record) => r.(fileType := FileTypes.FileTypeLabel(r.fileType)));
  }

  /** The tag columns of a cleaned row. Both tag fields are tidied, so
      neither is ever skipped as missing: the pieces of the combined tags are
      exactly the pieces of the two tidied fields, each once, and every one of
      them is lower-case, free of "," and ";", stripped and not "nan". */
  lemma CleanedTags(before: Record, after: Record)
    requires Cleaned(before, after)
    ensures forall t :: t in Split(after.combinedTags, ';') <==>
      t in Split(TidyCategories(before.originalTags), ';') || t in Split(TidyCategories(before.manualTags), ';')
    ensures forall t :: t in Split(after.combinedTags, ';') ==> IsTidyPiece(t)
    ensures NoDuplicates(Split(after.combinedTags, ';'))
  {
    var a, b := after.originalTags, after.manualTags;
    TidyCategoriesNotMissing(before.originalTags);
    TidyCategoriesNotMissing(before.manualTags);
    assert FieldPieces(a) == Split(a, ';') && FieldPieces(b) == Split(b, ';');
    TidyPiecesOf(before.originalTags);
    TidyPiecesOf(before.manualTags);
  }

  /** Every piece of a tidied field is a tidy piece. */
  lemma TidyPiecesOf(s: string)
    ensures forall t :: t in Split(TidyCategories(s), ';') ==> IsTidyPiece(t)
  {
    TidyCategoriesClean(s);
    var ps := Split(TidyCategories(s), ';');
    forall t | t in ps ensures IsTidyPiece(t) {
      var k :| 0 <= k < |ps| && ps[k] == t;
    }
  }

  /** The other rewritten columns of a cleaned row: the owner is canonical
      (renaming it again changes nothing), the upper-casing pass left the file
      type as `tidy_file_type` alone makes it, and the categories are never
      empty, name a category exactly when a combined tag is in its keyword
      list, and are "Uncategorised" alone or not at all. */
  lemma CleanedRecord(before: Record, after: Record)
    requires Cleaned(before, after)
    ensures after.owner !in OwnerRenames && RenameOwner(after.owner) == after.owner
    ensures after.fileType == FileTypes.FileTypeLabel(before.fileType)
    ensures after.odsCategories != ""
    ensures forall i :: 0 <= i < |CategoryTable| ==>
      (CategoryTable[i].name in Split(after.odsCategories, ';') <==>
         exists t :: t in Split(after.combinedTags, ';') && t in CategoryTable[i].keywords)
    ensures Uncategorised in Split(after.odsCategories, ';') ==> after.odsCategories == Uncategorised
  {
    FileTypes.UpperCellNoEffect(before.fileType);
    AssignedLabels(after.combinedTags, after.odsCategories);
  }

  /** A missing tag field tidies to "", whose one piece is the empty tag, and
      that empty tag reaches the combined tags: they are not free of empty
      elements. */
  lemma MissingTagsLeaveEmptyPiece(before: Record, after: Record)
    requires Cleaned(before, after)
    requires before.originalTags == "nan" || before.manualTags == "nan"
    ensures "" in Split(after.combinedTags, ';')
  {
    if before.originalTags == "nan" {
      TidyCategoriesMissing(before.originalTags);
    } else {
      TidyCategoriesMissing(before.manualTags);
    }
    assert Split("", ';') == [""];
    CleanedTags(before, after);
  }

  /** Tags "Cycling;Bus" and no manual tags: the combined tags are "cycling",
      "bus" and the empty tag, in some order, and the categories include
      "Transportation". */
  lemma CyclingBusRecord(before: Record, after: Record)
    requires Cleaned(before, after)
    requires before.originalTags == "Cycling;Bus" && before.manualTags == "nan"
    ensures forall t :: t in Split(after.combinedTags, ';') <==> t == "cycling" || t == "bus" || t == ""
    ensures Transportation in Split(after.odsCategories, ';')
  {
    TidyCategoriesCyclingBus(before.originalTags);
    TidyCategoriesMissing(before.manualTags);
    CyclingBusTags(after.originalTags, after.manualTags, after.combinedTags);
    TransportLabel(after.combinedTags, after.odsCategories);
  }

  /** Combining the tidied fields "cycling;bus" and "". */
  lemma CyclingBusTags(a: string, b: string, c: string)
    requires a == "cycling;bus" && b == ""
    requires CombinedFrom(a, b, c)
    ensures forall t :: t in Split(c, ';') <==> t == "cycling" || t == "bus" || t == ""
    ensures "cycling" in Split(c, ';')
  {
    SplitTidyCyclingBus(a);
    assert Split(b, ';') == [""];
    assert a != "nan" && b != "nan";
  }

  /** Combined tags that include "cycling" are categorised as transport. */
  lemma TransportLabel(tags: string, r: string)
    requires LabelsJoined(tags, CategoryTable, r) && "cycling" in Split(tags, ';')
    ensures Transportation in Split(r, ';')
  {
    TransportKeywords();
    AssignedLabels(tags, r);
    assert CategoryTable[15].name == Transportation;
  }
}
