/**
 * What every repository adapter shares: the classification of insert errors
 * by their text (checkIfIsDuplicated in repository/pgRepository.go and
 * repository/pgAppRepository.go).
 */
module Repository {
  import opened Text

  const DuplicateMarker := "duplicate"

  /** checkIfIsDuplicated: does the error text contain "duplicate"? */
  function CheckIfIsDuplicated(errStr: string): (r: bool)
    ensures r <==> Occurs(DuplicateMarker, errStr)
  {
    Contains(errStr, DuplicateMarker)
  }

  /** The test is case-sensitive: a capitalised "Duplicate" is not recognised. */
  lemma {:induction false} CheckIsCaseSensitive()
    ensures !CheckIfIsDuplicated("Duplicate")
    ensures CheckIfIsDuplicated("duplicate")
  {
    var s := "Duplicate";
    forall i: nat
      ensures !MatchAt(s, DuplicateMarker, i)
    {
      if i == 0 {
        assert s[0..|DuplicateMarker|][0] != DuplicateMarker[0];
      }
    }
    assert MatchAt(DuplicateMarker, DuplicateMarker, 0);
  }
}
