/** `tidy_file_type`: maps a file type (a MIME type, an extension or a
    platform label) onto a canonical file-type name through a fixed table,
    ignoring case and surrounding dots, spaces and slashes; a missing or empty
    file type becomes "No file type" and any other is stripped and upper-cased. */
module FileTypes {
  import opened PyStr
  import opened KeyLookup

  /** The characters `strip(". /")` removes. */
  predicate IsFileTypePad(c: char) { c == '.' || c == ' ' || c == '/' }

  /** The keys of the file-type table, in the order the source lists them. */
  datatype FileTypeKey =
    | SevenZipMime
    | ArcGisRest
    | EsriRest
    | AtomFeed
    | Htm
    | Ics
    | Jpeg
    | SpreadsheetMlMime
    | MsExcelMime
    | Xls
    | Xlsx
    | Doc
    | Docx
    | Qgis
    | Text
    | Web
    | TabGb1900Path
    | GazetteerPath
    | WebMappingApplication
    | Mets
    | Alto

  /** The text of each key.  The longest is written in two pieces, with the
      whole key in a comment above. */
  function KeyText(k: FileTypeKey): string
  {
    match k
    case SevenZipMime => "application/x-7z-compressed"
    case ArcGisRest => "ArcGIS GeoServices REST API"
    case EsriRest => "Esri REST"
    case AtomFeed => "Atom Feed"
    case Htm => "htm"
    case Ics => "ics"
    case Jpeg => "jpeg"
    // "vnd.openxmlformats-officedocument.spreadsheetml.sheet"
    case SpreadsheetMlMime => "vnd." + "openxmlformats-officedocument.spreadsheetml.sheet"
    case MsExcelMime => "vnd.ms-excel"
    case Xls => "xls"
    case Xlsx => "xlsx"
    case Doc => "doc"
    case Docx => "docx"
    case Qgis => "QGIS"
    case Text => "text"
    case Web => "web"
    case TabGb1900Path => "UK/DATA/#TABGB1900"
    case GazetteerPath => "UK/ROY/GAZETTEER/#DOWNLOAD"
    case WebMappingApplication => "Web Mapping Application"
    case Mets => "mets"
    case Alto => "alto"
  }

  /** The file-type table: each key with the canonical name it maps onto. */
  const FileTypeEntries: seq<(FileTypeKey, string)> := [
    (SevenZipMime, "7-Zip compressed file"),
    (ArcGisRest, "ARCGIS GEOSERVICE"),
    (EsriRest, "ARCGIS GEOSERVICE"),
    (AtomFeed, "ATOM FEED"),
    (Htm, "HTML"),
    (Ics, "iCalendar"),
    (Jpeg, "Image"),
    (SpreadsheetMlMime, "MS EXCEL"),
    (MsExcelMime, "MS EXCEL"),
    (Xls, "MS EXCEL"),
    (Xlsx, "MS EXCEL"),
    (Doc, "MS Word"),
    (Docx, "MS Word"),
    (Qgis, "QGIS Shapefile"),
    (Text, "TXT"),
    (Web, "URL"),
    (TabGb1900Path, "URL"),
    (GazetteerPath, "URL"),
    (WebMappingApplication, "WEB MAP"),
    (Mets, "XML"),
    (Alto, "XML")
  ]

  /** The table as the lookup sees it, keys spelled out. */
  const FileTypesToTidy: seq<(string, string)> :=
    seq(|FileTypeEntries|, i requires 0 <= i < |FileTypeEntries| => (KeyText(FileTypeEntries[i].0), FileTypeEntries[i].1))

  /** The canonical file-type names the table maps onto. */
  const FileTypeNames: set<string> := set e | e in FileTypeEntries :: e.1

  const NoFileType := "No file type"

  /** `str(file_type).strip(". /").upper()`: the fallback for an unknown type. */
  function Unknown(fileType: string): (r: string)
    ensures r == [] || (!IsFileTypePad(r[0]) && !IsFileTypePad(r[|r| - 1]))
    ensures forall i :: 0 <= i < |r| ==> !('a' <= r[i] <= 'z')
  {
    Upper(Strip(fileType, IsFileTypePad))
  }

  /** No key of the table matches `fileType`. */
  predicate NoKnownType(fileType: string)
  {
    forall k :: 0 <= k < |FileTypesToTidy| ==> !Matches(fileType, FileTypesToTidy[k].0, IsFileTypePad)
  }

  /** What `tidy_file_type` returns for `fileType`: the canonical name of the
      first key it matches; otherwise "No file type" for a missing or empty
      value and the stripped, upper-cased type for anything else. */
  function FileTypeLabel(fileType: string): (r: string)
    ensures r in FileTypeNames || r == NoFileType || r == Unknown(fileType)
    ensures !NoKnownType(fileType) ==> r in FileTypeNames
    ensures NoKnownType(fileType) ==>
              r == if fileType == "nan" || fileType == "" then NoFileType else Unknown(fileType)
  {
    match FirstMatch(fileType, FileTypesToTidy, IsFileTypePad)
    case Some(v) =>
      assert v in FileTypeNames by {
        var k :| 0 <= k < |FileTypesToTidy| && v == FileTypesToTidy[k].1;
        assert FileTypeEntries[k] in FileTypeEntries;
      }
      v
    case None => if fileType == "nan" || fileType == "" then NoFileType else Unknown(fileType)
  }

  /** `tidy_file_type(file_type)`: the loop over the table with early return,
      then the fallback for a missing, empty or unknown type. */
  method TidyFileType(fileType: string) returns (r: string)
    ensures r == FileTypeLabel(fileType)
  {
    var found := LookUp(fileType, FileTypesToTidy, IsFileTypePad);
    if found.Some? {
      return found.value;
    }
    if fileType == "nan" || fileType == "" {
      r := NoFileType;
    } else {
      r := Unknown(fileType);
    }
  }

  /** Types that differ only in case and surrounding dots, spaces and slashes
      get the same result, once one of them is a known type. */
  lemma FileTypeLabelNormalForm(x: string, y: string, k: int)
    requires Normalise(x, IsFileTypePad) == Normalise(y, IsFileTypePad)
    requires 0 <= k < |FileTypesToTidy| && Matches(x, FileTypesToTidy[k].0, IsFileTypePad)
    ensures FileTypeLabel(x) == FileTypeLabel(y)
  {
    FirstMatchNormalForm(x, y, FileTypesToTidy, IsFileTypePad);
  }

  /** The first characters of the keys, lower-cased. */
  const KeyHeads: set<char> := {'a', 'd', 'e', 'h', 'i', 'j', 'm', 'q', 't', 'u', 'v', 'w', 'x'}

  /** The lower-cased first character of each key. */
  function KeyHeadChar(k: FileTypeKey): char
  {
    match k
    case SevenZipMime | ArcGisRest | AtomFeed | Alto => 'a'
    case EsriRest => 'e'
    case Htm => 'h'
    case Ics => 'i'
    case Jpeg => 'j'
    case SpreadsheetMlMime | MsExcelMime => 'v'
    case Xls | Xlsx => 'x'
    case Doc | Docx => 'd'
    case Qgis => 'q'
    case Text => 't'
    case Web | WebMappingApplication => 'w'
    case TabGb1900Path | GazetteerPath => 'u'
    case Mets => 'm'
  }

  /** `KeyHeadChar` is the lower-cased first character of the key, and
      it is never padding. */
  lemma KeyHeadOf(k: FileTypeKey)
    ensures |KeyText(k)| > 0 && KeyHeadChar(k) == LowerChar(KeyText(k)[0])
    ensures !IsFileTypePad(KeyHeadChar(k)) && KeyHeadChar(k) in KeyHeads
  {
  }

  /** Entry `k` of the table as the lookup sees it. */
  lemma KnownType(k: int)
    requires 0 <= k < |FileTypeEntries|
    ensures |FileTypesToTidy| == |FileTypeEntries|
    ensures FileTypesToTidy[k] == (KeyText(FileTypeEntries[k].0), FileTypeEntries[k].1)
  {
  }

  /** Every key has a non-empty normal form starting with its head character. */
  lemma KeyHead(k: int)
    requires 0 <= k < |FileTypesToTidy|
    ensures |Normalise(FileTypesToTidy[k].0, IsFileTypePad)| > 0
    ensures Normalise(FileTypesToTidy[k].0, IsFileTypePad)[0] == KeyHeadChar(FileTypeEntries[k].0)
    ensures KeyHeadChar(FileTypeEntries[k].0) in KeyHeads
  {
    KnownType(k);
    var e := FileTypeEntries[k].0;
    KeyHeadOf(e);
    NormaliseHead(KeyText(e), IsFileTypePad);
  }

  /** A type whose normal form is empty, or starts with a character no key
      starts with, is unknown. */
  lemma UnknownHead(fileType: string)
    requires var n := Normalise(fileType, IsFileTypePad); n == [] || n[0] !in KeyHeads
    ensures NoKnownType(fileType)
  {
    forall k | 0 <= k < |FileTypesToTidy|
      ensures !Matches(fileType, FileTypesToTidy[k].0, IsFileTypePad)
    {
      KeyHead(k);
    }
  }

  /** With no key matching, a missing or empty type becomes "No file type"
      and any other is stripped and upper-cased. */
  lemma UnknownFileType(fileType: string)
    requires var n := Normalise(fileType, IsFileTypePad); n == [] || n[0] !in KeyHeads
    ensures FileTypeLabel(fileType) ==
      if fileType == "nan" || fileType == "" then NoFileType else Unknown(fileType)
  {
    UnknownHead(fileType);
  }

  /** A missing file type. */
  lemma NanFileType(s: string)
    requires s == "nan"
    ensures FileTypeLabel(s) == NoFileType
  {
    assert |s| == 3 && s[0] == 'n';
    NormaliseHead(s, IsFileTypePad);
    UnknownFileType(s);
  }

  /** An empty file type. */
  lemma EmptyFileType()
    ensures FileTypeLabel("") == NoFileType
  {
    UnknownFileType("");
  }

  /** A type made only of dots, spaces and slashes is not empty, so it is
      not "No file type": it strips to the empty string. */
  lemma PaddingOnlyFileType(s: string)
    requires s == ". /"
    ensures FileTypeLabel(s) == ""
  {
    assert |s| == 3 && s[0] == '.' && s[1] == ' ' && s[2] == '/';
    PaddingOnlyStrip(s);
    UnknownFileType(s);
  }

  /** Stripping a string made only of padding leaves nothing, with or without
      lower-casing first. */
  lemma PaddingOnlyStrip(s: string)
    requires |s| == 3 && s[0] == '.' && s[1] == ' ' && s[2] == '/'
    ensures Strip(s, IsFileTypePad) == "" && Normalise(s, IsFileTypePad) == ""
  {
    var l := Lower(s);
    assert l[0] == '.' && l[1] == ' ' && l[2] == '/';
    assert l == s;
    assert TrimLeft(s, IsFileTypePad) == TrimLeft(s[1..], IsFileTypePad);
    assert TrimLeft(s[1..], IsFileTypePad) == TrimLeft(s[2..], IsFileTypePad);
  }

  /** An unknown extension with a leading dot is stripped and upper-cased. */
  lemma PdfFileType(s: string)
    requires s == ".pdf"
    ensures FileTypeLabel(s) == "PDF"
  {
    assert |s| == 4 && s[0] == '.' && s[1] == 'p' && s[2] == 'd' && s[3] == 'f';
    PdfUnknown(s);
    PdfUpper(s);
  }

  /** ".pdf" strips to "pdf", lower-cased or not. */
  lemma PdfStrip(s: string)
    requires |s| == 4 && s[0] == '.' && s[1] == 'p' && s[2] == 'd' && s[3] == 'f'
    ensures Strip(s, IsFileTypePad) == s[1..] && Normalise(s, IsFileTypePad) == s[1..]
  {
    PdfLower(s);
    PdfTrim(s);
  }

  lemma PdfLower(s: string)
    requires |s| == 4 && s[0] == '.' && s[1] == 'p' && s[2] == 'd' && s[3] == 'f'
    ensures Lower(s) == s
  {
    var l := Lower(s);
    assert l[0] == '.' && l[1] == 'p' && l[2] == 'd' && l[3] == 'f';
  }

  lemma PdfTrim(s: string)
    requires |s| == 4 && s[0] == '.' && s[1] == 'p' && s[2] == 'd' && s[3] == 'f'
    ensures Strip(s, IsFileTypePad) == s[1..]
  {
    var t := s[1..];
    assert TrimLeft(s, IsFileTypePad) == TrimLeft(t, IsFileTypePad) == t;
    assert TrimRight(t, IsFileTypePad) == t;
  }

  /** No key starts with 'p', so ".pdf" is unknown. */
  lemma PdfUnknown(s: string)
    requires |s| == 4 && s[0] == '.' && s[1] == 'p' && s[2] == 'd' && s[3] == 'f'
    ensures NoKnownType(s)
  {
    PdfStrip(s);
    var n := Normalise(s, IsFileTypePad);
    assert n[0] == 'p';
    NoKeyHeadP();
    UnknownHead(s);
  }

  lemma NoKeyHeadP()
    ensures 'p' !in KeyHeads
  {
  }

  /** The fallback for ".pdf" is "PDF". */
  lemma PdfUpper(s: string)
    requires |s| == 4 && s[0] == '.' && s[1] == 'p' && s[2] == 'd' && s[3] == 'f'
    ensures Unknown(s) == "PDF"
  {
    PdfStrip(s);
    var u := Upper(s[1..]);
    assert u[0] == 'P' && u[1] == 'D' && u[2] == 'F';
    ThreeChars(u, 'P', 'D', 'F');
  }

  /** The normal form of the "xls" key is three characters long. */
  lemma XlsKeyLength()
    ensures |Normalise(KeyText(Xls), IsFileTypePad)| == 3
  {
    var k := KeyText(Xls);
    assert |k| == 3 && k[0] == 'x' && k[2] == 's';
    NormaliseUntouched(k, IsFileTypePad);
  }

  /** The keys before "xlsx" start with another letter, except "xls". */
  lemma EntriesBeforeXlsx(i: int)
    requires 0 <= i < 10
    ensures FileTypeEntries[i].0 == Xls || KeyHeadChar(FileTypeEntries[i].0) != 'x'
  {
  }

  /** Every spelling of the "xlsx" extension, whatever its case and padding,
      is an Excel file: the keys before it start differently, except "xls",
      which is shorter. */
  lemma XlsxSpellings(fileType: string)
    requires Normalise(fileType, IsFileTypePad) == Normalise(KeyText(Xlsx), IsFileTypePad)
    ensures FileTypeLabel(fileType) == "MS EXCEL"
  {
    XlsxKeyNormal();
    forall i | 0 <= i < 10 ensures !Matches(fileType, FileTypesToTidy[i].0, IsFileTypePad) {
      NotBeforeXlsx(fileType, i);
    }
    XlsxEntry();
    FirstMatchAt(fileType, FileTypesToTidy, IsFileTypePad, 10);
  }

  lemma XlsxEntry()
    ensures |FileTypesToTidy| == 21
    ensures FileTypesToTidy[10] == (KeyText(Xlsx), "MS EXCEL")
  {
    KnownType(10);
  }

  /** A type whose normal form has four characters and starts with 'x'
      matches none of the first ten keys. */
  lemma NotBeforeXlsx(fileType: string, i: int)
    requires |Normalise(fileType, IsFileTypePad)| == 4 && Normalise(fileType, IsFileTypePad)[0] == 'x'
    requires 0 <= i < 10
    ensures !Matches(fileType, FileTypesToTidy[i].0, IsFileTypePad)
  {
    KeyHead(i);
    EntriesBeforeXlsx(i);
    if FileTypeEntries[i].0 == Xls {
      KnownType(i);
      XlsKeyLength();
    }
  }

  /** The normal form of the "xlsx" key: four characters, starting with 'x'. */
  lemma XlsxKeyNormal()
    ensures |Normalise(KeyText(Xlsx), IsFileTypePad)| == 4
    ensures Normalise(KeyText(Xlsx), IsFileTypePad)[0] == 'x'
  {
    var k := KeyText(Xlsx);
    assert |k| == 4 && k[0] == 'x';
    NormaliseUntouched(k, IsFileTypePad);
  }

  /** The extension in upper case. */
  lemma UpperXlsxFileType(s: string)
    requires s == "XLSX"
    ensures FileTypeLabel(s) == "MS EXCEL"
  {
    UpperXlsxNormal(s);
    XlsxSpellings(s);
  }

  /** "XLSX" has the normal form of the "xlsx" key. */
  lemma UpperXlsxNormal(s: string)
    requires s == "XLSX"
    ensures Normalise(s, IsFileTypePad) == Normalise(KeyText(Xlsx), IsFileTypePad)
  {
    var k := KeyText(Xlsx);
    assert k == "xlsx";
    SameLower(s, k);
    assert |s| == 4 && s[0] == 'X' && s[3] == 'X';
    NormaliseUntouched(s, IsFileTypePad);
    NormaliseUntouched(k, IsFileTypePad);
  }

  /** "XLSX" and "xlsx" lower-case alike. */
  lemma SameLower(s: string, k: string)
    requires s == "XLSX" && k == "xlsx"
    ensures Lower(s) == Lower(k)
  {
    var ls, lk := Lower(s), Lower(k);
    assert ls[0] == lk[0] && ls[1] == lk[1] && ls[2] == lk[2] && ls[3] == lk[3];
  }

  /** No key ends with a dot, a space or a slash. */
  lemma KeyTail(k: FileTypeKey)
    ensures |KeyText(k)| > 0 && !IsFileTypePad(LowerChar(KeyText(k)[|KeyText(k)| - 1]))
  {
  }

  /** No key starts or ends with padding, so each normalises to its
      lower-case form. */
  lemma KeyNormal(k: FileTypeKey)
    ensures Normalise(KeyText(k), IsFileTypePad) == Lower(KeyText(k))
  {
    KeyHeadOf(k);
    KeyTail(k);
    NormaliseUntouched(KeyText(k), IsFileTypePad);
  }

  /** The length of each key. */
  function KeyLength(k: FileTypeKey): nat
  {
    match k
    case SevenZipMime => 27
    case ArcGisRest => 27
    case EsriRest => 9
    case AtomFeed => 9
    case Htm => 3
    case Ics => 3
    case Jpeg => 4
    case SpreadsheetMlMime => 53
    case MsExcelMime => 12
    case Xls => 3
    case Xlsx => 4
    case Doc => 3
    case Docx => 4
    case Qgis => 4
    case Text => 4
    case Web => 3
    case TabGb1900Path => 18
    case GazetteerPath => 26
    case WebMappingApplication => 23
    case Mets => 4
    case Alto => 4
  }

  /** `KeyLength` is the length of the key. */
  lemma KeyLengthOf(k: FileTypeKey)
    ensures KeyLength(k) == |KeyText(k)|
  {
  }

  /** Only the 7-Zip MIME type and the ArcGIS key share both their head
      character and their length. */
  lemma SameHeadSameLength(a: FileTypeKey, b: FileTypeKey)
    requires a != b && KeyHeadChar(a) == KeyHeadChar(b) && KeyLength(a) == KeyLength(b)
    ensures (a == SevenZipMime && b == ArcGisRest) || (a == ArcGisRest && b == SevenZipMime)
  {
  }

  /** No two keys of the file-type table normalise to the same string. */
  lemma FileTypeKeyNormalsDistinct(a: FileTypeKey, b: FileTypeKey)
    ensures Normalise(KeyText(a), IsFileTypePad) == Normalise(KeyText(b), IsFileTypePad) ==> a == b
  {
    if a != b {
      KeyNormal(a);
      KeyNormal(b);
      KeysLowerDistinct(a, b);
    }
  }

  lemma KeysLowerDistinct(a: FileTypeKey, b: FileTypeKey)
    requires a != b
    ensures Lower(KeyText(a)) != Lower(KeyText(b))
  {
    if KeyHeadChar(a) != KeyHeadChar(b) {
      HeadsDiffer(a, b);
    } else if KeyLength(a) != KeyLength(b) {
      KeyLengthOf(a);
      KeyLengthOf(b);
    } else {
      SameHeadSameLength(a, b);
      SevenZipArcGis();
    }
  }

  lemma HeadsDiffer(a: FileTypeKey, b: FileTypeKey)
    requires KeyHeadChar(a) != KeyHeadChar(b)
    ensures Lower(KeyText(a)) != Lower(KeyText(b))
  {
    KeyHeadOf(a);
    KeyHeadOf(b);
    LowerDiffersAt(KeyText(a), KeyText(b), 0);
  }

  /** Strings whose characters at `i` lower-case differently lower-case
      differently. */
  lemma LowerDiffersAt(s: string, t: string, i: int)
    requires 0 <= i < |s| && i < |t| && LowerChar(s[i]) != LowerChar(t[i])
    ensures Lower(s) != Lower(t)
  {
    assert Lower(s)[i] != Lower(t)[i];
  }

  /** The two keys of equal length starting with 'a' differ in their second
      character. */
  lemma SevenZipArcGis()
    ensures Lower(KeyText(SevenZipMime)) != Lower(KeyText(ArcGisRest))
  {
    var s, t := KeyText(SevenZipMime), KeyText(ArcGisRest);
    assert s[1] == 'p' && t[1] == 'r';
    LowerDiffersAt(s, t, 1);
  }

  /** Each key occurs once in the table. */
  lemma FileTypeEntryKeysDistinct(i: int, j: int)
    requires 0 <= i < |FileTypeEntries| && 0 <= j < |FileTypeEntries|
    ensures FileTypeEntries[i].0 == FileTypeEntries[j].0 ==> i == j
  {
    assert forall i, i' :: 0 <= i < i' < |FileTypeEntries| ==> FileTypeEntries[i].0 != FileTypeEntries[i'].0;
  }

  /** Since no two keys normalise alike, the first matching key is the only
      one: a type that matches any key gets that key's canonical name. */
  lemma FileTypeAnyMatch(fileType: string, k: int)
    requires 0 <= k < |FileTypesToTidy| && Matches(fileType, FileTypesToTidy[k].0, IsFileTypePad)
    ensures FileTypeLabel(fileType) == FileTypesToTidy[k].1
  {
    var r := FirstMatch(fileType, FileTypesToTidy, IsFileTypePad);
    var j :| 0 <= j < |FileTypesToTidy| && Matches(fileType, FileTypesToTidy[j].0, IsFileTypePad)
      && r.value == FileTypesToTidy[j].1;
    KnownType(j);
    KnownType(k);
    FileTypeKeyNormalsDistinct(FileTypeEntries[j].0, FileTypeEntries[k].0);
    FileTypeEntryKeysDistinct(j, k);
    LabelOfMatch(fileType, r.value);
  }

  /** `data["FileType"].str.upper()`, run before `tidy_file_type`: a missing
      value stays missing, any other is upper-cased. */
  function UpperCell(fileType: string): (r: string)
    ensures |r| == |fileType|
    ensures fileType == "nan" ==> r == fileType
    ensures fileType != "nan" ==> forall i :: 0 <= i < |r| ==> r[i] == UpperChar(fileType[i])
    ensures fileType != "nan" ==> forall i :: 0 <= i < |r| ==> !('a' <= r[i] <= 'z')
  {
    if fileType == "nan" then fileType else Upper(fileType)
  }

  /** The upper-casing pass before `tidy_file_type` changes no result: the
      lookup ignores case, and the fallback upper-cases anyway. */
  lemma UpperCellNoEffect(fileType: string)
    ensures FileTypeLabel(UpperCell(fileType)) == FileTypeLabel(fileType)
  {
    if fileType != "nan" {
      var u := Upper(fileType);
      LowerUpper(fileType);
      FirstMatchNormalForm(u, fileType, FileTypesToTidy, IsFileTypePad);
      var m := FirstMatch(fileType, FileTypesToTidy, IsFileTypePad);
      if m.Some? {
        LabelOfMatch(u, m.value);
        LabelOfMatch(fileType, m.value);
      } else {
        UpperUnknown(fileType);
      }
    }
  }

  /** An unknown type and its upper-cased form get the same fallback. */
  lemma UpperUnknown(fileType: string)
    requires fileType != "nan"
    requires NoKnownType(fileType) && NoKnownType(Upper(fileType))
    ensures FileTypeLabel(Upper(fileType)) == FileTypeLabel(fileType)
  {
    var u := Upper(fileType);
    assert u != "nan" by {
      assert |u| > 0 ==> !('a' <= u[0] <= 'z');
    }
    assert (u == "") == (fileType == "");
    assert CaseBlind(IsFileTypePad);
    StripUpper(fileType, IsFileTypePad);
    UpperUpper(Strip(fileType, IsFileTypePad));
  }

  /** A matched type gets the value of its first matching key. */
  lemma LabelOfMatch(fileType: string, v: string)
    requires FirstMatch(fileType, FileTypesToTidy, IsFileTypePad) == Some(v)
    ensures FileTypeLabel(fileType) == v
  {
  }
}
