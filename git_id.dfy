/** The identity of the commit the application was built from: the full commit
    id and its abbreviation, with a marker for a build whose commit is unknown. */
module Utils {
  import opened Java

  /** The marker for an unknown commit ("unknown" in German). */
  const NA: string := "unbekannt"

  /** A commit id with its abbreviation. */
  datatype GitId = GitId(full: string, abbrev: string) {

    function GetAbbrev(): string
    {
      abbrev
    }

    function GetFull(): string
    {
      full
    }

    /** Whether the full id is the marker for an unknown commit. */
    predicate IsUnknown()
    {
      full == NA
    }
  }

  /** Builds the commit id from the full id and an optional abbreviation: a
      supplied abbreviation is kept as it is; otherwise an unknown id is
      abbreviated by the marker and a known one by its first (at most) eight
      characters. Defined for every full id, the empty one included. */
  function NewGitId(full: string, abbrev: Option<string>): (g: GitId)
    ensures g.GetFull() == full
    ensures g.IsUnknown() <==> full == NA
    ensures abbrev.Some? ==> g.GetAbbrev() == abbrev.value
    ensures abbrev.None? && full == NA ==> g.GetAbbrev() == NA
    ensures abbrev.None? && full != NA ==>
              |g.GetAbbrev()| == Min(8, |full|) && g.GetAbbrev() <= full
  {
    match abbrev
    case Some(a) => GitId(full, a)
    case None => GitId(full, if full == NA then NA else full[..Min(8, |full|)])
  }

  /** A derived abbreviation of a known id has at most eight characters, and
      an id of at most eight characters is its own abbreviation. */
  lemma KnownAbbrevIsShortPrefix(full: string)
    requires full != NA
    ensures |NewGitId(full, None).GetAbbrev()| <= 8
    ensures NewGitId(full, None).GetAbbrev() <= full
    ensures |full| <= 8 ==> NewGitId(full, None).GetAbbrev() == full
  {
  }

  /** The eight-character bound does not hold for an unknown id: its
      abbreviation is the nine-character marker. */
  lemma UnknownAbbrevIsLonger()
    ensures NewGitId(NA, None).IsUnknown()
    ensures |NewGitId(NA, None).GetAbbrev()| == 9
  {
  }

  /** Supplying a commit id's own full id and abbreviation rebuilds it, and
      supplying the abbreviation that would have been derived changes nothing. */
  lemma NewGitIdRoundTrip(g: GitId, full: string)
    ensures NewGitId(g.GetFull(), Some(g.GetAbbrev())) == g
    ensures NewGitId(full, Some(NewGitId(full, None).GetAbbrev())) == NewGitId(full, None)
  {
  }
}
