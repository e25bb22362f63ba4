/** The owner canonicaliser of `clean_data`: `Series.replace` with a fixed
    dictionary of owner-name variants, substituting whole values only. */
module Owners {

  /** Known spellings of an owner, each with the canonical organisation name. */
  const OwnerRenames: map<string, string> := map[
    "Aberdeen" := "Aberdeen City Council",
    "Dundee" := "Dundee City Council",
    "Perth" := "Perth and Kinross Council",
    "Stirling" := "Stirling Council",
    "Angus" := "Angus Council",
    "open.data@southayrshire" := "South Ayrshire Council",
    "SEPA" := "Scottish Environment Protection Agency",
    "South Ayrshire" := "South Ayrshire Council",
    "East Ayrshire" := "East Ayrshire Council",
    "Highland Council GIS Organisation" := "Highland Council",
    "Scottish.Forestry" := "Scottish Forestry",
    "Na h-Eileanan an Iar" := "Comhairle nan Eilean Siar"
  ]

  /** No canonical name is itself a spelling the table renames. */
  lemma CanonicalNamesAreFinal()
    ensures forall k :: k in OwnerRenames ==> OwnerRenames[k] !in OwnerRenames
  {
  }

  /** The owner after renaming: the canonical name when `owner` is exactly one
      of the known spellings, and `owner` unchanged otherwise. The result is
      never a spelling the table would rename again. */
  function RenameOwner(owner: string): (r: string)
    ensures r !in OwnerRenames
    ensures r != owner ==> owner in OwnerRenames && r == OwnerRenames[owner]
    ensures owner in OwnerRenames ==> r == OwnerRenames[owner]
  {
    CanonicalNamesAreFinal();
    if owner in OwnerRenames then OwnerRenames[owner] else owner
  }

  /** Renaming twice is renaming once. */
  lemma RenameOwnerIdempotent(owner: string)
    ensures RenameOwner(RenameOwner(owner)) == RenameOwner(owner)
  {
  }
}
