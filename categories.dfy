/** `assign_ODScategories`: maps the combined tags of a record to the ODS
    categories whose keyword lists contain one of them, or to "Uncategorised". */
module OdsCategories {
  import opened PyStr
  import opened Tags

  /** One entry of the static category table: a label and its keyword list. */
  datatype Category = Category(name: string, keywords: seq<string>)

  // The sixteen category labels (the docstring of the source speaks of
  // thirteen).
  const ArtsCultureHistory := "Arts / Culture / History"
  const BudgetFinance := "Budget / Finance"
  const BusinessAndEconomy := "Business and Economy"
  const CouncilAndGovernment := "Council and Government"
  const Education := "Education"
  const ElectionsPolitics := "Elections / Politics"
  const FoodAndEnvironment := "Food and Environment"
  const HealthAndSocialCare := "Health and Social Care"
  const HousingAndEstates := "Housing and Estates"
  const LawAndLicensing := "Law and Licensing"
  const ParksRecreation := "Parks / Recreation"
  const PlanningAndDevelopment := "Planning and Development"
  const PublicSafety := "Public Safety"
  const SportAndLeisure := "Sport and Leisure"
  const Tourism := "Tourism"
  const Transportation := "Transportation"

  const Uncategorised := "Uncategorised"

  /** The ODS category table, in the order of the source dictionary. */
  const CategoryTable: seq<Category> := [
    Category(ArtsCultureHistory, ArtsCultureHistoryKeywords),
    Category(BudgetFinance, BudgetFinanceKeywords),
    Category(BusinessAndEconomy, BusinessAndEconomyKeywords),
    Category(CouncilAndGovernment, CouncilAndGovernmentKeywords),
    Category(Education, EducationKeywords),
    Category(ElectionsPolitics, ElectionsPoliticsKeywords),
    Category(FoodAndEnvironment, FoodAndEnvironmentKeywords),
    Category(HealthAndSocialCare, HealthAndSocialCareKeywords),
    Category(HousingAndEstates, HousingAndEstatesKeywords),
    Category(LawAndLicensing, LawAndLicensingKeywords),
    Category(ParksRecreation, ParksRecreationKeywords),
    Category(PlanningAndDevelopment, PlanningAndDevelopmentKeywords),
    Category(PublicSafety, PublicSafetyKeywords),
    Category(SportAndLeisure, SportAndLeisureKeywords),
    Category(Tourism, TourismKeywords),
    Category(Transportation, TransportationKeywords)
  ]

  /** Tag `t` is (case-sensitively) in the keyword list of entry `i`. */
  predicate HasKeyword(table: seq<Category>, i: int, t: string)
    requires 0 <= i < |table|
  {
    t in table[i].keywords
  }

  /** The labels of the entries of `table` matched by some `;`-piece of `tags`. */
  function MatchedCategories(tags: string, table: seq<Category>): set<string>
  {
    var ps := Split(tags, ';');
    set u, i | 0 <= u < |ps| && 0 <= i < |table| && HasKeyword(table, i, ps[u])
      :: table[i].name
  }

  /** The set of labels `assign_ODScategories` joins: the matched categories,
      or "Uncategorised" alone when there are none. */
  function OdsLabels(tags: string, table: seq<Category>): set<string>
  {
    var m := MatchedCategories(tags, table);
    if m == {} then {Uncategorised} else m
  }

  /** No label of `table` contains the separator ";". */
  predicate LabelsWithoutSemicolon(table: seq<Category>)
  {
    forall i :: 0 <= i < |table| ==> ';' !in table[i].name
  }

  /** The labels of `table` are pairwise distinct, none is "Uncategorised",
      and none contains ";". */
  predicate WellFormedTable(table: seq<Category>)
  {
    && LabelsWithoutSemicolon(table)
    && (forall i :: 0 <= i < |table| ==> table[i].name != Uncategorised)
    && (forall i, j :: 0 <= i < j < |table| ==> table[i].name != table[j].name)
  }

  /** `r` is a join of the labels `OdsLabels(tags, table)`, each once. */
  ghost predicate LabelsJoined(tags: string, table: seq<Category>, r: string)
  {
    && (forall c :: c in Split(r, ';') <==> c in OdsLabels(tags, table))
    && NoDuplicates(Split(r, ';'))
  }

  /** The loop of `assign_ODScategories`, over a given table: for every
      `;`-piece and every category, in order, it appends the label when the
      piece is in the keyword list; with nothing appended it falls back to
      "Uncategorised"; and it joins the set of labels with ";". The pieces of
      the result are exactly `OdsLabels(tags, table)`, each once. */
  method AssignCategories(tags: string, table: seq<Category>) returns (r: string)
    requires LabelsWithoutSemicolon(table)
    ensures LabelsJoined(tags, table, r)
  {
    var combined := Split(tags, ';');
    var applied: seq<string> := [];
    for u := 0 to |combined|
      invariant forall c :: c in applied <==>
        exists v, i :: 0 <= v < u && 0 <= i < |table|
          && HasKeyword(table, i, combined[v]) && c == table[i].name
    {
      for i := 0 to |table|
        invariant forall c :: c in applied <==>
          (exists v, j :: 0 <= v < u && 0 <= j < |table|
            && HasKeyword(table, j, combined[v]) && c == table[j].name)
          || (exists j :: 0 <= j < i && HasKeyword(table, j, combined[u]) && c == table[j].name)
      {
        if combined[u] in table[i].keywords {
          applied := applied + [table[i].name];
        }
      }
    }
    var matched := MatchedCategories(tags, table);
    assert forall c :: c in applied <==> c in matched;
    if |applied| == 0 {
      applied := [Uncategorised];
      assert matched == {};
    } else {
      assert applied[0] in matched;
    }
    var labels := set c | c in applied;
    assert labels == OdsLabels(tags, table);
    r := JoinSet(labels, ';');
  }

  /** `assign_ODScategories(tags)` with the source's table. */
  method AssignOdsCategories(tags: string) returns (r: string)
    ensures LabelsJoined(tags, CategoryTable, r)
  {
    CategoryTableWellFormed();
    r := AssignCategories(tags, CategoryTable);
  }

  /** Nothing matches exactly when no piece is in any keyword list. */
  lemma NoMatchedCategories(tags: string, table: seq<Category>)
    ensures MatchedCategories(tags, table) == {} ==>
      forall i, t :: 0 <= i < |table| && t in Split(tags, ';') ==> t !in table[i].keywords
    ensures (forall i, t :: 0 <= i < |table| && t in Split(tags, ';') ==> t !in table[i].keywords)
      ==> MatchedCategories(tags, table) == {}
  {
    var ps := Split(tags, ';');
    var m := MatchedCategories(tags, table);
    forall i, t | 0 <= i < |table| && t in ps && t in table[i].keywords
      ensures table[i].name in m
    {
      var u :| 0 <= u < |ps| && ps[u] == t;
      assert HasKeyword(table, i, ps[u]);
    }
    if m != {} {
      var c :| c in m;
      var u, j :| 0 <= u < |ps| && 0 <= j < |table| && HasKeyword(table, j, ps[u])
        && table[j].name == c;
      assert ps[u] in ps && ps[u] in table[j].keywords;
    } else {
      assert forall i, t :: 0 <= i < |table| && t in ps ==> t !in table[i].keywords;
    }
  }

  /** Every matched label is the label of an entry of the table. */
  lemma MatchedAreLabels(tags: string, table: seq<Category>, c: string)
    requires c in MatchedCategories(tags, table)
    ensures exists i :: 0 <= i < |table| && table[i].name == c
  {
    var ps := Split(tags, ';');
    var u, j :| 0 <= u < |ps| && 0 <= j < |table| && HasKeyword(table, j, ps[u])
      && table[j].name == c;
  }

  /** For a table none of whose labels is "Uncategorised": the result is
      "Uncategorised" alone exactly when no piece matches any keyword list,
      "Uncategorised" never appears beside a category label, and every label
      is "Uncategorised" or a label of the table. */
  lemma LabelsFallback(tags: string, table: seq<Category>)
    requires forall i :: 0 <= i < |table| ==> table[i].name != Uncategorised
    ensures OdsLabels(tags, table) == {Uncategorised} ==>
      (forall i, t :: 0 <= i < |table| && t in Split(tags, ';') ==> t !in table[i].keywords)
    ensures (forall i, t :: 0 <= i < |table| && t in Split(tags, ';') ==> t !in table[i].keywords)
      ==> OdsLabels(tags, table) == {Uncategorised}
    ensures Uncategorised in OdsLabels(tags, table) ==> OdsLabels(tags, table) == {Uncategorised}
    ensures forall c :: c in OdsLabels(tags, table) ==>
      c == Uncategorised || exists i :: 0 <= i < |table| && table[i].name == c
  {
    NoMatchedCategories(tags, table);
    var m := MatchedCategories(tags, table);
    forall c | c in m ensures exists i :: 0 <= i < |table| && table[i].name == c {
      MatchedAreLabels(tags, table, c);
    }
    assert Uncategorised !in m;
  }

  /** In a well-formed table, the label of entry `i` is in the result exactly
      when some `;`-piece of the tags is in that entry's keyword list. */
  lemma LabelMatch(tags: string, table: seq<Category>, i: int)
    requires WellFormedTable(table) && 0 <= i < |table|
    ensures table[i].name in OdsLabels(tags, table) <==>
      exists t :: t in Split(tags, ';') && t in table[i].keywords
  {
    var ps := Split(tags, ';');
    var m := MatchedCategories(tags, table);
    if table[i].name in m {
      var u, j :| 0 <= u < |ps| && 0 <= j < |table| && HasKeyword(table, j, ps[u])
        && table[j].name == table[i].name;
      assert j == i;
      assert ps[u] in ps;
    }
    if exists t :: t in ps && t in table[i].keywords {
      var t :| t in ps && t in table[i].keywords;
      var u :| 0 <= u < |ps| && ps[u] == t;
      assert HasKeyword(table, i, ps[u]);
      assert table[i].name in m;
    }
  }

  /** For a single tag (no ";"): the label of entry `i` is in the result
      exactly when the tag is in that entry's keyword list, and a tag in some
      keyword list is never "Uncategorised". */
  lemma SingleTagLabel(t: string, table: seq<Category>, i: int)
    requires ';' !in t
    requires WellFormedTable(table) && 0 <= i < |table|
    ensures table[i].name in OdsLabels(t, table) <==> t in table[i].keywords
    ensures t in table[i].keywords ==> Uncategorised !in OdsLabels(t, table)
  {
    SplitAtom(t, ';');
    LabelMatch(t, table, i);
    LabelsFallback(t, table);
    assert t in Split(t, ';');
  }

  /** What a joined result says, for a well-formed table with no empty
      label: it is never empty; it names entry `i` exactly when a tag is in
      that entry's keyword list; it holds "Uncategorised" exactly when no tag
      is in any keyword list, and then it is "Uncategorised" alone. */
  lemma JoinedLabels(tags: string, table: seq<Category>, r: string)
    requires WellFormedTable(table)
    requires forall i :: 0 <= i < |table| ==> table[i].name != ""
    requires LabelsJoined(tags, table, r)
    ensures r != ""
    ensures forall i :: 0 <= i < |table| ==>
      (table[i].name in Split(r, ';') <==>
         exists t :: t in Split(tags, ';') && t in table[i].keywords)
    ensures Uncategorised in Split(r, ';') <==>
      forall i, t :: 0 <= i < |table| && t in Split(tags, ';') ==> t !in table[i].keywords
    ensures Uncategorised in Split(r, ';') ==> r == Uncategorised
  {
    LabelsFallback(tags, table);
    forall i | 0 <= i < |table|
      ensures table[i].name in Split(r, ';') <==>
        exists t :: t in Split(tags, ';') && t in table[i].keywords
    {
      LabelMatch(tags, table, i);
    }
    var ps := Split(r, ';');
    assert "" !in OdsLabels(tags, table);
    assert ps[0] in ps;
    if Uncategorised in ps {
      assert (set c | c in ps) == {Uncategorised};
      NoDuplicatesCard(ps);
      assert ps == [Uncategorised];
      JoinSplit(r, ';');
    }
  }

  /** `JoinedLabels` for the source's table: what the result of
      `assign_ODScategories` says about the tags it was given. */
  lemma AssignedLabels(tags: string, r: string)
    requires LabelsJoined(tags, CategoryTable, r)
    ensures r != ""
    ensures forall i :: 0 <= i < |CategoryTable| ==>
      (CategoryTable[i].name in Split(r, ';') <==>
         exists t :: t in Split(tags, ';') && t in CategoryTable[i].keywords)
    ensures Uncategorised in Split(r, ';') <==>
      forall i, t :: 0 <= i < |CategoryTable| && t in Split(tags, ';') ==> t !in CategoryTable[i].keywords
    ensures Uncategorised in Split(r, ';') ==> r == Uncategorised
  {
    CategoryTableWellFormed();
    forall i | 0 <= i < |CategoryTable| ensures CategoryTable[i].name != "" {
      LabelNotEmpty(i);
    }
    JoinedLabels(tags, CategoryTable, r);
  }

  /** No category label is empty. */
  lemma LabelNotEmpty(i: int)
    requires 0 <= i < |CategoryTable|
    ensures CategoryTable[i].name != ""
  {
  }

  /** The source's table is well formed. */
  lemma CategoryTableWellFormed()
    ensures |CategoryTable| == 16
    ensures WellFormedTable(CategoryTable)
  {
    LabelsWithoutSemicolon1();
    LabelsWithoutSemicolon2();
    LabelsWithoutSemicolon3();
    LabelsWithoutSemicolon4();
    CategoryLabelsDistinct();
  }

  // The absence of ";" from the labels, four labels at a time.
  lemma LabelsWithoutSemicolon1()
    ensures ';' !in ArtsCultureHistory && ';' !in BudgetFinance
    ensures ';' !in BusinessAndEconomy && ';' !in CouncilAndGovernment
  {
  }

  lemma LabelsWithoutSemicolon2()
    ensures ';' !in Education && ';' !in ElectionsPolitics
    ensures ';' !in FoodAndEnvironment && ';' !in HealthAndSocialCare
  {
  }

  lemma LabelsWithoutSemicolon3()
    ensures ';' !in HousingAndEstates && ';' !in LawAndLicensing
    ensures ';' !in ParksRecreation && ';' !in PlanningAndDevelopment
  {
  }

  lemma LabelsWithoutSemicolon4()
    ensures ';' !in PublicSafety && ';' !in SportAndLeisure
    ensures ';' !in Tourism && ';' !in Transportation
  {
  }

  /** The labels differ from each other and from "Uncategorised". */
  lemma CategoryLabelsDistinct()
    ensures forall i, j :: 0 <= i < j < |CategoryTable| ==> CategoryTable[i].name != CategoryTable[j].name
    ensures forall i :: 0 <= i < |CategoryTable| ==> CategoryTable[i].name != Uncategorised
  {
  }

  /** `SingleTagLabel` for the source's table. */
  lemma CategoryTableTagLabel(t: string, i: int)
    requires ';' !in t && 0 <= i < |CategoryTable|
    ensures CategoryTable[i].name in OdsLabels(t, CategoryTable) <==> t in CategoryTable[i].keywords
    ensures t in CategoryTable[i].keywords ==> Uncategorised !in OdsLabels(t, CategoryTable)
  {
    CategoryTableWellFormed();
    SingleTagLabel(t, CategoryTable, i);
  }

  /** "parking" is a keyword of both "Housing and Estates" (entry 8) and
      "Transportation" (entry 15), and "cycling" one of "Transportation". */
  lemma TransportKeywords()
    ensures "parking" in CategoryTable[8].keywords
    ensures "parking" in CategoryTable[15].keywords && "cycling" in CategoryTable[15].keywords
  {
    assert HousingAndEstatesKeywords[11] == "parking";
    assert TransportationKeywords[8] == "cycling" && TransportationKeywords[9] == "parking";
  }

  /** Hence the single tag "parking" gets the label "Housing and Estates"... */
  lemma ParkingIsHousing()
    ensures CategoryTable[8].name in OdsLabels("parking", CategoryTable)
    ensures Uncategorised !in OdsLabels("parking", CategoryTable)
  {
    TransportKeywords();
    CategoryTableTagLabel("parking", 8);
  }

  /** ...and the label "Transportation". */
  lemma ParkingIsTransport()
    ensures CategoryTable[15].name in OdsLabels("parking", CategoryTable)
  {
    TransportKeywords();
    CategoryTableTagLabel("parking", 15);
  }

  /** The single tag "cycling" is a transport tag. */
  lemma CyclingIsTransport()
    ensures CategoryTable[15].name in OdsLabels("cycling", CategoryTable)
    ensures Uncategorised !in OdsLabels("cycling", CategoryTable)
  {
    TransportKeywords();
    CategoryTableTagLabel("cycling", 15);
  }

  /** Two adjacent literals in the "Business and Economy" list (entry 2) form
      the single keyword "commercial land and propertycommercial waste"; its
      second half is not a keyword of that category. */
  lemma CommercialWasteKeyword()
    ensures "commercial land and propertycommercial waste" in BusinessAndEconomyKeywords
    ensures "commercial waste" !in BusinessAndEconomyKeywords
  {
    assert BusinessAndEconomyKeywords[11] == "commercial land and propertycommercial waste";
  }

  /** The first half, "commercial land and property", is no keyword either. */
  lemma CommercialPropertyKeyword()
    ensures "commercial land and property" !in BusinessAndEconomyKeywords
  {
  }

  /** "commercial waste" is a keyword of "Food and Environment" (entry 6). */
  lemma CommercialWasteFoodKeyword()
    ensures "commercial waste" in CategoryTable[6].keywords
  {
    assert FoodAndEnvironmentKeywords[|FoodAndEnvironmentKeywords| - 1] == "commercial waste";
  }

  /** Hence the tag "commercial waste" is categorised under "Food and
      Environment" (and, by `SingleTagLabel` with `CommercialWasteKeyword`,
      not under "Business and Economy"). */
  lemma CommercialWasteIsFood()
    ensures CategoryTable[6].name in OdsLabels("commercial waste", CategoryTable)
  {
    CommercialWasteFoodKeyword();
    CategoryTableTagLabel("commercial waste", 6);
  }

  /** Keywords no tidied tag can equal: "FOI", "MPs", "MSPs" and "GP" contain
      upper-case letters and " sports activities" starts with a space, while
      every piece `tidy_categories` emits is lower-case and stripped. */
  lemma UnmatchableKeywords(p: string)
    requires IsTidyPiece(p)
    ensures "FOI" in CouncilAndGovernmentKeywords && p != "FOI"
    ensures "MPs" in CouncilAndGovernmentKeywords && p != "MPs"
    ensures "MSPs" in CouncilAndGovernmentKeywords && p != "MSPs"
    ensures "GP" in HealthAndSocialCareKeywords && p != "GP"
    ensures " sports activities" in SportAndLeisureKeywords && p != " sports activities"
  {
    assert CouncilAndGovernmentKeywords[11] == "FOI";
    assert CouncilAndGovernmentKeywords[15] == "MPs";
    assert CouncilAndGovernmentKeywords[16] == "MSPs";
    assert HealthAndSocialCareKeywords[51] == "GP";
    assert SportAndLeisureKeywords[3] == " sports activities";
    assert "FOI"[0] == 'F' && "MPs"[0] == 'M' && "MSPs"[0] == 'M' && "GP"[0] == 'G';
    assert IsSpace(" sports activities"[0]);
  }

  const ArtsCultureHistoryKeywords: seq<string> := [
    "arts", "culture", "history", "military", "art gallery", "design", "fashion", "museum",
    "historic centre", "conservation", "archaeology", "events", "theatre"
  ]

  const BudgetFinanceKeywords: seq<string> := [
    "tenders", "contracts", "lgcs finance", "budget", "finance", "payment", "grants",
    "financial year", "council tax"
  ]

  const BusinessAndEconomyKeywords: seq<string> := [
    "business and economy", "business", "business and trade", "economic information",
    "economic development", "business grants", "business awards", "health and safety",
    "trading standards", "food safety", "business rates",
    "commercial land and propertycommercial waste", "pollution", "farming", "forestry",
    "crofting", "countryside", "farming", "emergency planning", "health and safety",
    "trading standards", "health and safety at work", "regeneration", "shopping",
    "shopping centres", "markets", "tenders", "contracts", "city centre management",
    "town centre management", "economy", "economic", "economic activity",
    "economic development", "deprivation", "scottish index of multiple deprivation", "simd",
    "business", "estimated population", "population", "labour force"
  ]

  const CouncilAndGovernmentKeywords: seq<string> := [
    "council buildings", "community development", "council and government", "council",
    "councils", "council tax", "benefits", "council grants", "grants", "council departments",
    "data protection", "FOI", "freedom of information", "council housing", "politicians", "MPs",
    "MSPs", "councillors", "elected members", "wards", "constituencies", "boundaries",
    "council minutes", "council agendas", "council plans", "council policies"
  ]

  const EducationKeywords: seq<string> := [
    "primary schools", "lgcs education & skills", "education", "eductional", "library",
    "school meals", "schools", "school", "nurseries", "playgroups"
  ]

  const ElectionsPoliticsKeywords: seq<string> := [
    "community councils", "political", "polling places", "elections", "politics", "elecorate",
    "election", "electoral", "electorate", "local authority", "council area", "democracy",
    "polling", "lgcs democracy", "democracy and governance", "local government", "councillor",
    "councillors", "community council"
  ]

  const FoodAndEnvironmentKeywords: seq<string> := [
    "food", "school meals", "allotment", "public toilets", "air", "tree",
    "vacant and derelict land supply", "landscape", "nature", "rights of way",
    "tree preservation order", "preservation", "land", "contaminated", "green", "belt",
    "employment land audit", "environment", "forest woodland strategy", "waste", "recycling",
    "lgcs waste management", "water-network", "grafitti", "street occupations", "regeneration",
    "vandalism", "street cleansing", "litter", "toilets", "drains", "flytipping", "flyposting",
    "pollution", "air quality", "household waste", "commercial waste"
  ]

  const HealthAndSocialCareKeywords: seq<string> := [
    "public toilets", "contraception", "implant", "cervical", "iud", "ius", "pis",
    "prescribing", "elderly", "screening", "screening programme", "cancer", "breast feeding",
    "defibrillators", "wards", "alcohol and drug partnership", "care homes", "waiting times",
    "drugs", "substance use", "pregnancy", "induced abortion", "therapeutic abortion",
    "termination", "abortion", "co-dependency", "sexual health", "outpatient", "waiting list",
    "stage of treatment", "daycase", "inpatient", "alcohol", "waiting time", "treatment",
    "community wellbeing and social environment", "health", "human services", "covid-19",
    "covid", "hospital", "health board", "health and social care partnership", "medicine",
    "health and social care", "health and fitness", "nhs24", "hospital admissions",
    "hospital mortality", "mental health", "pharmacy", "GP", "surgery", "fostering", "adoption",
    "social work", "asylum", "immigration", "citizenship", "carers"
  ]

  const HousingAndEstatesKeywords: seq<string> := [
    "buildings", "housing data supply 2020", "multiple occupation", "housing",
    "sheltered housing", "adaptations", "repairs", "council housing", "landlord",
    "landlord registration", "rent arrears", "parking", "garages", "homelessness",
    "temporary accommodation", "rent", "tenancy", "housing advice", "housing associations",
    "housing advice", "housing repairs", "lettings", "real estate", "land records",
    "land-cover", "woodland", "dwellings", "burial grounds", "cemeteries", "property",
    "vacant and derelict land", "scottish vacant and derelict land", "allotment"
  ]

  const LawAndLicensingKeywords: seq<string> := [
    "law", "licensing", "regulation", "regulations", "licence", "licenses", "permit", "permits",
    "police", "court", "courts", "tribunal", "tribunals"
  ]

  const ParksRecreationKeywords: seq<string> := [
    "parks", "recreation", "woodland", "parks and open spaces"
  ]

  const PlanningAndDevelopmentKeywords: seq<string> := [
    "buildings", "vacant and derelict land supply", "core paths. adopted",
    "employment land audit", "built environment", "planning", "zoning", "council area",
    "address", "addresses", "city development plan", "boundaries", "post-code", "dwellings",
    "planning permission", "postcode-units", "housing", "property", "building control",
    "conservation"
  ]

  const PublicSafetyKeywords: seq<string> := [
    "emergency planning", "public safety", "crime and justice", "lgcs community safety",
    "street lighting", "community safety", "cctv", "road safety"
  ]

  const SportAndLeisureKeywords: seq<string> := [
    "sport", "sports", "sports facilities", " sports activities", "countryside", "wildlife",
    "leisure", "leisure clubs", "clubs", "groups", "societies", "libraries", "archives",
    "local history", "heritage", "museums", "galleries", "parks", "gardens", "open spaces",
    "sports", "sports clubs", "leisure centres"
  ]

  const TourismKeywords: seq<string> := [
    "public toilets", "tourism", "tourist", "attractions", "accomodation", "historic buildings",
    "tourist routes", "cafes", "restaurants", "hotels", "hotel"
  ]

  const TransportationKeywords: seq<string> := [
    "core paths. adopted", "lgcs transport infrastructure", "transportation", "mobility",
    "pedestrian", "walking", "walk", "cycle", "cycling", "parking", "car", "bus", "tram",
    "train", "taxi", "transport", "electric vehicle", "electric vehicle charging points",
    "transport / mobility", "active travel", "road safety", "roads", "community transport",
    "road works", "road closures", "speed limits", "port", "harbour"
  ]
}
