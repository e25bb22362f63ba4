/** `tidy_licence`: maps a licence name or URL onto a canonical licence name
    through a fixed table, ignoring case and surrounding spaces and slashes;
    a missing licence becomes "No licence" and any other name is kept behind
    a "Custom licence: " prefix. */
module Licences {
  import opened PyStr
  import opened KeyLookup

  /** The characters `strip(" /")` removes. */
  predicate IsLicencePad(c: char) { c == ' ' || c == '/' }

  /** The keys of the licence table, in the order the source lists them. */
  datatype LicenceKey =
    | CcBySa30Url
    | CcBy40LegalCodeUrl
    | CcBy40Url
    | CcBy40Name
    | Cc0Url
    | NoCNcUrl
    | OdblUrl
    | OdblName
    | Ogl2Url
    | Ogl3Url
    | Ogl3UkName
    | UkOglName
    | OpenGovernmentName
    | UkOglSlug
    | Ogl3Slug
    | NkcUrl
    | PdMarkUrl
    | OtherPdName
    | PublicDomainName
    | PsEulName

  /** The scheme the URL keys share. */
  const Https := "https://"

  /** The path the two Open Government Licence URL keys share. */
  const OglVersions := "www.nationalarchives.gov.uk/doc/open-government-licence/version/"

  /** The text of each key.  Longer literals are written in pieces, with
      the whole key in a comment above. */
  function KeyText(k: LicenceKey): string
  {
    match k
    // "https://creativecommons.org/licenses/by-sa/3.0/"
    case CcBySa30Url => Https + "creativecommons.org/licenses/by-sa/3.0/"
    // "https://creativecommons.org/licenses/by/4.0/legalcode"
    case CcBy40LegalCodeUrl => Https + "creativecommons.org/licenses/by/4.0/legalcode"
    // "https://creativecommons.org/licenses/by/4.0"
    case CcBy40Url => Https + "creativecommons.org/licenses/by/4.0"
    case CcBy40Name => "Creative Commons Attribution 4.0"
    // "https://creativecommons.org/share-your-work/public-domain/cc0"
    case Cc0Url => Https + "creativecommons.org/share-your-work/public-domain/cc0"
    // "https://rightsstatements.org/page/NoC-NC/1.0/"
    case NoCNcUrl => Https + "rightsstatements.org/page/NoC-NC/1.0/"
    // "https://opendatacommons.org/licenses/odbl/1-0/"
    case OdblUrl => Https + "opendatacommons.org/licenses/odbl/1-0/"
    // "Open Data Commons Open Database License 1.0"
    case OdblName => "Open Data Commons " + "Open Database License 1.0"
    // "https://www.nationalarchives.gov.uk/doc/open-government-licence/version/2/"
    case Ogl2Url => Https + OglVersions + "2/"
    // "https://www.nationalarchives.gov.uk/doc/open-government-licence/version/3/"
    case Ogl3Url => Https + OglVersions + "3/"
    // "Open Government Licence 3.0 (United Kingdom)"
    case Ogl3UkName => "Open Government Licence " + "3.0 (United Kingdom)"
    case UkOglName => "UK Open Government Licence (OGL)"
    case OpenGovernmentName => "Open Government"
    case UkOglSlug => "uk-ogl"
    case Ogl3Slug => "OGL3"
    // "https://rightsstatements.org/vocab/NKC/1.0/"
    case NkcUrl => Https + "rightsstatements.org/vocab/NKC/1.0/"
    // "https://creativecommons.org/publicdomain/mark/1.0/"
    case PdMarkUrl => Https + "creativecommons.org/publicdomain/mark/1.0/"
    case OtherPdName => "Other (Public Domain)"
    case PublicDomainName => "Public Domain"
    case PsEulName => "Public Sector End User Licence (Scotland)"
  }

  /** The licence table: each key with the canonical name it maps onto. */
  const LicenceEntries: seq<(LicenceKey, string)> := [
    (CcBySa30Url, "Creative Commons Attribution Share-Alike 3.0"),
    (CcBy40LegalCodeUrl, "Creative Commons Attribution 4.0 International"),
    (CcBy40Url, "Creative Commons Attribution 4.0 International"),
    (CcBy40Name, "Creative Commons Attribution 4.0 International"),
    (Cc0Url, "Creative Commons CC0"),
    (NoCNcUrl, "Non-Commercial Use Only"),
    (OdblUrl, "Open Data Commons Open Database License 1.0"),
    (OdblName, "Open Data Commons Open Database License 1.0"),
    (Ogl2Url, "Open Government Licence v2.0"),
    (Ogl3Url, "Open Government Licence v3.0"),
    (Ogl3UkName, "Open Government Licence v3.0"),
    (UkOglName, "Open Government Licence v3.0"),
    (OpenGovernmentName, "Open Government Licence v3.0"),
    (UkOglSlug, "Open Government Licence v3.0"),
    (Ogl3Slug, "Open Government Licence v3.0"),
    (NkcUrl, "No Known Copyright"),
    (PdMarkUrl, "Public Domain"),
    (OtherPdName, "Public Domain"),
    (PublicDomainName, "Public Domain"),
    (PsEulName, "Public Sector End User Licence (Scotland)")
  ]

  /** The table as the lookup sees it, keys spelled out. */
  const KnownLicences: seq<(string, string)> :=
    seq(|LicenceEntries|, i requires 0 <= i < |LicenceEntries| => (KeyText(LicenceEntries[i].0), LicenceEntries[i].1))

  /** The canonical licence names the table maps onto. */
  const LicenceNames: set<string> := set e | e in LicenceEntries :: e.1

  const NoLicence := "No licence"
  const CustomPrefix := "Custom licence: "

  /** What `tidy_licence` returns for `name`: the canonical name of the first
      key it matches; otherwise "No licence" for a missing value and the name
      itself behind the custom prefix for anything else. */
  function LicenceLabel(name: string): (r: string)
    ensures r in LicenceNames || r == NoLicence || (|r| >= |CustomPrefix| && r[..|CustomPrefix|] == CustomPrefix)
    ensures (forall k :: 0 <= k < |KnownLicences| ==> !Matches(name, KnownLicences[k].0, IsLicencePad)) ==>
              r == if name == "nan" then NoLicence else CustomPrefix + name
  {
    match FirstMatch(name, KnownLicences, IsLicencePad)
    case Some(v) =>
      assert v in LicenceNames by {
        var k :| 0 <= k < |KnownLicences| && v == KnownLicences[k].1;
        assert LicenceEntries[k] in LicenceEntries;
      }
      v
    case None => if name == "nan" then NoLicence else CustomPrefix + name
  }

  /** `tidy_licence(name)`: the loop over the table with early return, then the
      fallback for a missing or unknown licence. */
  method TidyLicence(name: string) returns (r: string)
    ensures r == LicenceLabel(name)
  {
    var found := LookUp(name, KnownLicences, IsLicencePad);
    if found.Some? {
      return found.value;
    }
    if name == "nan" {
      r := NoLicence;
    } else {
      r := CustomPrefix + name;
    }
  }

  /** Names that differ only in case and surrounding spaces and slashes get
      the same canonical name, once one of them is a known licence. */
  lemma LicenceLabelNormalForm(x: string, y: string, k: int)
    requires Normalise(x, IsLicencePad) == Normalise(y, IsLicencePad)
    requires 0 <= k < |KnownLicences| && Matches(x, KnownLicences[k].0, IsLicencePad)
    ensures LicenceLabel(x) == LicenceLabel(y)
  {
    FirstMatchNormalForm(x, y, KnownLicences, IsLicencePad);
  }

  // The length of each key's normal form.  Lookups are decided below by
  // comparing these lengths, which keeps the proofs away from the text of
  // the keys.

  function NormalLength(k: LicenceKey): nat
  {
    match k
    case CcBySa30Url => 46
    case CcBy40LegalCodeUrl => 53
    case CcBy40Url => 43
    case CcBy40Name => 32
    case Cc0Url => 61
    case NoCNcUrl => 44
    case OdblUrl => 45
    case OdblName => 43
    case Ogl2Url => 73
    case Ogl3Url => 73
    case Ogl3UkName => 44
    case UkOglName => 32
    case OpenGovernmentName => 15
    case UkOglSlug => 6
    case Ogl3Slug => 4
    case NkcUrl => 42
    case PdMarkUrl => 49
    case OtherPdName => 21
    case PublicDomainName => 13
    case PsEulName => 41
  }

  lemma CcBySa30UrlLength()
    ensures |Normalise(KeyText(CcBySa30Url), IsLicencePad)| == 46
  {
    NormaliseOneTrailing(KeyText(CcBySa30Url), IsLicencePad);
  }

  lemma CcBy40LegalCodeUrlLength()
    ensures |Normalise(KeyText(CcBy40LegalCodeUrl), IsLicencePad)| == 53
  {
    NormaliseUntouched(KeyText(CcBy40LegalCodeUrl), IsLicencePad);
  }

  lemma CcBy40UrlLength()
    ensures |Normalise(KeyText(CcBy40Url), IsLicencePad)| == 43
  {
    NormaliseUntouched(KeyText(CcBy40Url), IsLicencePad);
  }

  lemma CcBy40NameLength()
    ensures |Normalise(KeyText(CcBy40Name), IsLicencePad)| == 32
  {
    NormaliseUntouched(KeyText(CcBy40Name), IsLicencePad);
  }

  lemma Cc0UrlLength()
    ensures |Normalise(KeyText(Cc0Url), IsLicencePad)| == 61
  {
    NormaliseUntouched(KeyText(Cc0Url), IsLicencePad);
  }

  lemma NoCNcUrlLength()
    ensures |Normalise(KeyText(NoCNcUrl), IsLicencePad)| == 44
  {
    NormaliseOneTrailing(KeyText(NoCNcUrl), IsLicencePad);
  }

  lemma OdblUrlLength()
    ensures |Normalise(KeyText(OdblUrl), IsLicencePad)| == 45
  {
    NormaliseOneTrailing(KeyText(OdblUrl), IsLicencePad);
  }

  lemma OdblNameLength()
    ensures |Normalise(KeyText(OdblName), IsLicencePad)| == 43
  {
    NormaliseUntouched(KeyText(OdblName), IsLicencePad);
  }

  lemma Ogl2UrlLength()
    ensures |Normalise(KeyText(Ogl2Url), IsLicencePad)| == 73
  {
    NormaliseOneTrailing(KeyText(Ogl2Url), IsLicencePad);
  }

  lemma Ogl3UrlLength()
    ensures |Normalise(KeyText(Ogl3Url), IsLicencePad)| == 73
  {
    NormaliseOneTrailing(KeyText(Ogl3Url), IsLicencePad);
  }

  lemma Ogl3UkNameLength()
    ensures |Normalise(KeyText(Ogl3UkName), IsLicencePad)| == 44
  {
    NormaliseUntouched(KeyText(Ogl3UkName), IsLicencePad);
  }

  lemma UkOglNameLength()
    ensures |Normalise(KeyText(UkOglName), IsLicencePad)| == 32
  {
    NormaliseUntouched(KeyText(UkOglName), IsLicencePad);
  }

  lemma OpenGovernmentNameLength()
    ensures |Normalise(KeyText(OpenGovernmentName), IsLicencePad)| == 15
  {
    NormaliseUntouched(KeyText(OpenGovernmentName), IsLicencePad);
  }

  lemma UkOglSlugLength()
    ensures |Normalise(KeyText(UkOglSlug), IsLicencePad)| == 6
  {
    NormaliseUntouched(KeyText(UkOglSlug), IsLicencePad);
  }

  lemma Ogl3SlugLength()
    ensures |Normalise(KeyText(Ogl3Slug), IsLicencePad)| == 4
  {
    NormaliseUntouched(KeyText(Ogl3Slug), IsLicencePad);
  }

  lemma NkcUrlLength()
    ensures |Normalise(KeyText(NkcUrl), IsLicencePad)| == 42
  {
    NormaliseOneTrailing(KeyText(NkcUrl), IsLicencePad);
  }

  lemma PdMarkUrlLength()
    ensures |Normalise(KeyText(PdMarkUrl), IsLicencePad)| == 49
  {
    NormaliseOneTrailing(KeyText(PdMarkUrl), IsLicencePad);
  }

  lemma OtherPdNameLength()
    ensures |Normalise(KeyText(OtherPdName), IsLicencePad)| == 21
  {
    NormaliseUntouched(KeyText(OtherPdName), IsLicencePad);
  }

  lemma PublicDomainNameLength()
    ensures |Normalise(KeyText(PublicDomainName), IsLicencePad)| == 13
  {
    NormaliseUntouched(KeyText(PublicDomainName), IsLicencePad);
  }

  lemma PsEulNameLength()
    ensures |Normalise(KeyText(PsEulName), IsLicencePad)| == 41
  {
    NormaliseUntouched(KeyText(PsEulName), IsLicencePad);
  }

  /** Each key's normal form has the length `NormalLength` gives. */
  lemma KeyLength(k: LicenceKey)
    ensures |Normalise(KeyText(k), IsLicencePad)| == NormalLength(k)
  {
    match k
    case CcBySa30Url => CcBySa30UrlLength();
    case CcBy40LegalCodeUrl => CcBy40LegalCodeUrlLength();
    case CcBy40Url => CcBy40UrlLength();
    case CcBy40Name => CcBy40NameLength();
    case Cc0Url => Cc0UrlLength();
    case NoCNcUrl => NoCNcUrlLength();
    case OdblUrl => OdblUrlLength();
    case OdblName => OdblNameLength();
    case Ogl2Url => Ogl2UrlLength();
    case Ogl3Url => Ogl3UrlLength();
    case Ogl3UkName => Ogl3UkNameLength();
    case UkOglName => UkOglNameLength();
    case OpenGovernmentName => OpenGovernmentNameLength();
    case UkOglSlug => UkOglSlugLength();
    case Ogl3Slug => Ogl3SlugLength();
    case NkcUrl => NkcUrlLength();
    case PdMarkUrl => PdMarkUrlLength();
    case OtherPdName => OtherPdNameLength();
    case PublicDomainName => PublicDomainNameLength();
    case PsEulName => PsEulNameLength();
  }

  lemma NormalLengthMin(e: LicenceKey)
    ensures NormalLength(e) >= 4
  {
  }

  lemma KnownKeyLength(k: int)
    requires 0 <= k < |KnownLicences|
    ensures |Normalise(KnownLicences[k].0, IsLicencePad)| == NormalLength(LicenceEntries[k].0) >= 4
  {
    var e := LicenceEntries[k].0;
    assert KnownLicences[k].0 == KeyText(e);
    KeyLength(e);
    NormalLengthMin(e);
  }

  /** No key normalises to fewer than four characters, so such a name is
      never a known licence. */
  lemma ShortNameUnknown(name: string)
    requires |Normalise(name, IsLicencePad)| < 4
    ensures LicenceLabel(name) == if name == "nan" then NoLicence else CustomPrefix + name
  {
    forall k | 0 <= k < |KnownLicences| ensures !Matches(name, KnownLicences[k].0, IsLicencePad) {
      KnownKeyLength(k);
    }
  }

  /** A missing licence. */
  lemma NanLicence()
    ensures LicenceLabel("nan") == NoLicence
  {
    ShortNameUnknown("nan");
  }

  /** The empty string is not a missing value: it becomes a custom licence
      with nothing after the prefix. */
  lemma EmptyLicence()
    ensures LicenceLabel("") == CustomPrefix
  {
    ShortNameUnknown("");
  }

  /** Every spelling of the `uk-ogl` slug, whatever its case and padding,
      maps to the Open Government Licence v3.0: no key before it in the table
      has a six-character normal form. */
  lemma UkOglSpellings(name: string)
    requires Matches(name, KeyText(UkOglSlug), IsLicencePad)
    ensures LicenceLabel(name) == "Open Government Licence v3.0"
  {
    UkOglSlugLength();
    forall i | 0 <= i < 13 ensures !Matches(name, KnownLicences[i].0, IsLicencePad) {
      KnownKeyLength(i);
      EntriesBeforeSlug(i);
      NormalLengthSix(LicenceEntries[i].0);
    }
    SlugEntry();
    FirstMatchAt(name, KnownLicences, IsLicencePad, 13);
  }

  lemma EntriesBeforeSlug(i: int)
    requires 0 <= i < 13
    ensures LicenceEntries[i].0 != UkOglSlug
  {
  }

  lemma SlugEntry()
    ensures |KnownLicences| == 20
    ensures KnownLicences[13] == (KeyText(UkOglSlug), "Open Government Licence v3.0")
  {
  }

  /** The slug in upper case. */
  lemma UkOglLicence()
    ensures LicenceLabel("UK-OGL") == "Open Government Licence v3.0"
  {
    UkOglMatch();
    UkOglSpellings("UK-OGL");
  }

  lemma UkOglMatch()
    ensures Matches("UK-OGL", KeyText(UkOglSlug), IsLicencePad)
    ensures |Normalise("UK-OGL", IsLicencePad)| == 6
  {
    UkOglSlugNormal();
    UpperSlugNormal();
    SlugLower();
  }

  lemma UkOglSlugNormal()
    ensures Normalise(KeyText(UkOglSlug), IsLicencePad) == Lower(KeyText(UkOglSlug))
  {
    NormaliseUntouched(KeyText(UkOglSlug), IsLicencePad);
  }

  lemma UpperSlugNormal()
    ensures Normalise("UK-OGL", IsLicencePad) == Lower("UK-OGL")
  {
    NormaliseUntouched("UK-OGL", IsLicencePad);
  }

  lemma SlugLower()
    ensures Lower("UK-OGL") == Lower(KeyText(UkOglSlug))
  {
    var s := "UK-OGL";
    var t := KeyText(UkOglSlug);
    assert forall i :: 0 <= i < 6 ==> LowerChar(s[i]) == LowerChar(t[i]);
  }

  lemma NormalLengthSix(e: LicenceKey)
    ensures NormalLength(e) == 6 ==> e == UkOglSlug
  {
  }

  /** Every spelling of the Creative Commons 4.0 URL maps to the Attribution
      4.0 licence: the two keys before it have normal forms of other lengths. */
  lemma CcBy40Spellings(name: string)
    requires Matches(name, KeyText(CcBy40Url), IsLicencePad)
    ensures LicenceLabel(name) == "Creative Commons Attribution 4.0 International"
  {
    CcBy40UrlLength();
    forall i | 0 <= i < 2 ensures !Matches(name, KnownLicences[i].0, IsLicencePad) {
      KnownKeyLength(i);
      EntriesBeforeCcBy40(i);
    }
    CcBy40Entry();
    FirstMatchAt(name, KnownLicences, IsLicencePad, 2);
  }

  lemma EntriesBeforeCcBy40(i: int)
    requires 0 <= i < 2
    ensures NormalLength(LicenceEntries[i].0) != 43
  {
  }

  lemma CcBy40Entry()
    ensures |KnownLicences| == 20
    ensures KnownLicences[2] == (KeyText(CcBy40Url), "Creative Commons Attribution 4.0 International")
  {
  }

  /** A trailing slash is padding. */
  lemma CcBy40SlashLicence()
    ensures LicenceLabel(Https + "creativecommons.org/licenses/by/4.0/") == "Creative Commons Attribution 4.0 International"
  {
    CcBy40SlashMatch();
    CcBy40Spellings(Https + "creativecommons.org/licenses/by/4.0/");
  }

  lemma CcBy40SlashMatch()
    ensures Matches(Https + "creativecommons.org/licenses/by/4.0/", KeyText(CcBy40Url), IsLicencePad)
  {
    CcBy40SlashNormal();
    CcBy40SlashPrefix();
    CcBy40UrlNormal();
  }

  lemma CcBy40SlashNormal()
    ensures Normalise(Https + "creativecommons.org/licenses/by/4.0/", IsLicencePad) == Lower((Https + "creativecommons.org/licenses/by/4.0/")[..43])
  {
    NormaliseOneTrailing(Https + "creativecommons.org/licenses/by/4.0/", IsLicencePad);
  }

  lemma CcBy40SlashPrefix()
    ensures (Https + "creativecommons.org/licenses/by/4.0/")[..43] == KeyText(CcBy40Url)
  {
  }

  lemma CcBy40UrlNormal()
    ensures Normalise(KeyText(CcBy40Url), IsLicencePad) == Lower(KeyText(CcBy40Url))
  {
    NormaliseUntouched(KeyText(CcBy40Url), IsLicencePad);
  }

  /** Keys whose normal forms have the same length come in four pairs. */
  lemma SameLengthKeys(a: LicenceKey, b: LicenceKey)
    requires a != b && NormalLength(a) == NormalLength(b)
    ensures || (a == CcBy40Url && b == OdblName) || (a == OdblName && b == CcBy40Url)
            || (a == CcBy40Name && b == UkOglName) || (a == UkOglName && b == CcBy40Name)
            || (a == NoCNcUrl && b == Ogl3UkName) || (a == Ogl3UkName && b == NoCNcUrl)
            || (a == Ogl2Url && b == Ogl3Url) || (a == Ogl3Url && b == Ogl2Url)
  {
  }

  /** The first character of a key's normal form. */
  lemma KeyHead(k: LicenceKey, c: char)
    requires |KeyText(k)| > 0 && KeyText(k)[0] == c && !IsLicencePad(LowerChar(c))
    ensures |Normalise(KeyText(k), IsLicencePad)| > 0
    ensures Normalise(KeyText(k), IsLicencePad)[0] == LowerChar(c)
  {
    NormaliseHead(KeyText(k), IsLicencePad);
  }

  /** The two Open Government Licence URLs differ in the version digit,
      the last character of their normal forms. */
  lemma OglVersionDigit(k: LicenceKey)
    requires k == Ogl2Url || k == Ogl3Url
    ensures |Normalise(KeyText(k), IsLicencePad)| == 73
    ensures Normalise(KeyText(k), IsLicencePad)[72] == if k == Ogl2Url then '2' else '3'
  {
    var s := KeyText(k);
    var p := Https + OglVersions;
    assert |p| == 72 && p[0] == 'h';
    assert s == p + [s[72], '/'];
    VersionedUrl(s, s[72]);
  }

  /** A 74-character URL that ends with a version digit and "/" normalises
      to 73 characters ending with that digit. */
  lemma VersionedUrl(s: string, d: char)
    requires |s| == 74 && s[0] == 'h' && s[72] == d && s[73] == '/' && '0' <= d <= '9'
    ensures |Normalise(s, IsLicencePad)| == 73 && Normalise(s, IsLicencePad)[72] == d
  {
    NormaliseOneTrailing(s, IsLicencePad);
    assert Lower(s[..73])[72] == LowerChar(s[72]);
  }

  // The four pairs of keys with normal forms of equal length differ in a
  // character.

  lemma CcBy40UrlOdblName()
    ensures Normalise(KeyText(CcBy40Url), IsLicencePad) != Normalise(KeyText(OdblName), IsLicencePad)
  {
    KeyHead(CcBy40Url, 'h');
    KeyHead(OdblName, 'O');
  }

  lemma CcBy40NameUkOglName()
    ensures Normalise(KeyText(CcBy40Name), IsLicencePad) != Normalise(KeyText(UkOglName), IsLicencePad)
  {
    KeyHead(CcBy40Name, 'C');
    KeyHead(UkOglName, 'U');
  }

  lemma NoCNcUrlOgl3UkName()
    ensures Normalise(KeyText(NoCNcUrl), IsLicencePad) != Normalise(KeyText(Ogl3UkName), IsLicencePad)
  {
    KeyHead(NoCNcUrl, 'h');
    KeyHead(Ogl3UkName, 'O');
  }

  lemma Ogl2UrlOgl3Url()
    ensures Normalise(KeyText(Ogl2Url), IsLicencePad) != Normalise(KeyText(Ogl3Url), IsLicencePad)
  {
    OglVersionDigit(Ogl2Url);
    OglVersionDigit(Ogl3Url);
  }

  /** Keys whose normal forms have the same length still normalise apart. */
  lemma SameLengthKeysDistinct(a: LicenceKey, b: LicenceKey)
    requires a != b && NormalLength(a) == NormalLength(b)
    ensures Normalise(KeyText(a), IsLicencePad) != Normalise(KeyText(b), IsLicencePad)
  {
    SameLengthKeys(a, b);
    if a == CcBy40Url || a == OdblName {
      CcBy40UrlOdblName();
    } else if a == CcBy40Name || a == UkOglName {
      CcBy40NameUkOglName();
    } else if a == NoCNcUrl || a == Ogl3UkName {
      NoCNcUrlOgl3UkName();
    } else {
      Ogl2UrlOgl3Url();
    }
  }

  /** No two keys normalise to the same string. */
  lemma KeyNormalsDistinct(a: LicenceKey, b: LicenceKey)
    ensures Normalise(KeyText(a), IsLicencePad) == Normalise(KeyText(b), IsLicencePad) ==> a == b
  {
    if a != b {
      if NormalLength(a) == NormalLength(b) {
        SameLengthKeysDistinct(a, b);
      } else {
        KeyLength(a);
        KeyLength(b);
      }
    }
  }

  /** Since no two keys normalise alike, the first matching key is the only
      one: a name that matches any key gets that key's canonical name. */
  lemma LicenceAnyMatch(name: string, k: int)
    requires 0 <= k < |KnownLicences| && Matches(name, KnownLicences[k].0, IsLicencePad)
    ensures LicenceLabel(name) == KnownLicences[k].1
  {
    var r := FirstMatch(name, KnownLicences, IsLicencePad);
    var j :| 0 <= j < |KnownLicences| && Matches(name, KnownLicences[j].0, IsLicencePad)
      && r.value == KnownLicences[j].1;
    KnownLicence(j);
    KnownLicence(k);
    KeyNormalsDistinct(LicenceEntries[j].0, LicenceEntries[k].0);
    EntryKeysDistinct(j, k);
    LabelOfMatch(name, r.value);
  }

  /** Entry `k` of the table as the lookup sees it. */
  lemma KnownLicence(k: int)
    requires 0 <= k < |LicenceEntries|
    ensures |KnownLicences| == |LicenceEntries|
    ensures KnownLicences[k] == (KeyText(LicenceEntries[k].0), LicenceEntries[k].1)
  {
  }

  /** Each key occurs once in the table. */
  lemma EntryKeysDistinct(i: int, j: int)
    requires 0 <= i < |LicenceEntries| && 0 <= j < |LicenceEntries|
    ensures LicenceEntries[i].0 == LicenceEntries[j].0 ==> i == j
  {
    assert forall i, i' :: 0 <= i < i' < |LicenceEntries| ==> LicenceEntries[i].0 != LicenceEntries[i'].0;
  }

  /** A matched name gets the value of its first matching key. */
  lemma LabelOfMatch(name: string, v: string)
    requires FirstMatch(name, KnownLicences, IsLicencePad) == Some(v)
    ensures LicenceLabel(name) == v
  {
  }
}
