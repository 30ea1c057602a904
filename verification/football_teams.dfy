/** The "interesting team" heuristic of football.js. */
module Teams {
  import opened Text
  import opened Matches

  /** Lower-case name fragments of notable clubs, in source order. */
  const TopTeams: seq<string> := [
    "bayern", "münchen", "dortmund", "bvb", "leverkusen", "leipzig",
    "manchester", "liverpool", "arsenal", "chelsea", "tottenham", "city",
    "real madrid", "barcelona", "atlético", "atletico",
    "juventus", "inter", "milan", "napoli", "roma",
    "paris", "psg", "marseille", "lyon"
  ]

  /** `fragments.some(t => hay.includes(t))`. */
  predicate AnyFragment(hay: string, fragments: seq<string>)
  {
    fragments != [] && (Contains(hay, fragments[0]) || AnyFragment(hay, fragments[1..]))
  }

  lemma {:induction false} AnyFragmentIff(hay: string, fragments: seq<string>)
    ensures AnyFragment(hay, fragments) <==>
      exists i :: 0 <= i < |fragments| && Contains(hay, fragments[i])
  {
    if fragments != [] {
      AnyFragmentIff(hay, fragments[1..]);
      if !Contains(hay, fragments[0]) && !AnyFragment(hay, fragments[1..]) {
        forall i | 0 <= i < |fragments|
          ensures !Contains(hay, fragments[i])
        {
          if i > 0 {
            assert fragments[i] == fragments[1..][i - 1];
          }
        }
      } else if !Contains(hay, fragments[0]) {
        var i :| 0 <= i < |fragments[1..]| && Contains(hay, fragments[1..][i]);
        assert fragments[i + 1] == fragments[1..][i];
      }
    }
  }

  /** `AnyFragment` against the reference definition: some fragment occurs at
      some position of `hay`. */
  lemma AnyFragmentOccurs(hay: string, fragments: seq<string>)
    ensures AnyFragment(hay, fragments) <==>
      exists i, j :: 0 <= i < |fragments| && OccursAt(hay, fragments[i], j)
  {
    AnyFragmentIff(hay, fragments);
    if AnyFragment(hay, fragments) {
      var i :| 0 <= i < |fragments| && Contains(hay, fragments[i]);
      ContainsIff(hay, fragments[i]);
      var j :| OccursAt(hay, fragments[i], j);
    }
    if exists i, j :: 0 <= i < |fragments| && OccursAt(hay, fragments[i], j) {
      var i, j :| 0 <= i < |fragments| && OccursAt(hay, fragments[i], j);
      ContainsAt(hay, fragments[i], j);
    }
  }

  /** `isTopTeam(name)`: the lower-cased name contains some fragment. */
  predicate IsTopTeam(name: string)
  {
    AnyFragment(Lower(name), TopTeams)
  }

  lemma IsTopTeamIff(name: string)
    ensures IsTopTeam(name) <==>
      exists i, j :: 0 <= i < |TopTeams| && OccursAt(Lower(name), TopTeams[i], j)
  {
    var fragments := TopTeams;
    AnyFragmentOccurs(Lower(name), fragments);
    assert IsTopTeam(name) == AnyFragment(Lower(name), fragments);
  }

  /** The test does not depend on the case of the name. */
  lemma IsTopTeamCaseInsensitive(name: string)
    ensures IsTopTeam(Lower(name)) == IsTopTeam(name)
  {
    LowerIdempotent(name);
  }

  /** `isInteresting(m)`. */
  predicate IsInteresting(m: Match)
  {
    IsTopTeam(m.homeTeam) || IsTopTeam(m.awayTeam)
  }

  /** Swapping home and away does not change whether a match is interesting. */
  lemma IsInterestingSymmetric(m: Match)
    ensures IsInteresting(m.(homeTeam := m.awayTeam, awayTeam := m.homeTeam)) == IsInteresting(m)
  {
  }

  /** A name containing a fragment, in any case, makes a match interesting. */
  lemma InterestingByFragment(m: Match, i: int, j: int)
    requires 0 <= i < |TopTeams|
    requires OccursAt(Lower(m.homeTeam), TopTeams[i], j) || OccursAt(Lower(m.awayTeam), TopTeams[i], j)
    ensures IsInteresting(m)
  {
    IsTopTeamIff(m.homeTeam);
    IsTopTeamIff(m.awayTeam);
  }

  /** A name whose lower-cased text holds fragment `i` at position `j` is a top team. */
  lemma TopTeamAt(name: string, i: int, j: int)
    requires 0 <= i < |TopTeams|
    requires OccursAt(Lower(name), TopTeams[i], j)
    ensures IsTopTeam(name)
  {
    IsTopTeamIff(name);
  }

  /** A home side named "FC Bayern München" matches through "bayern". */
  lemma BayernHomeIsInteresting(m: Match)
    requires m.homeTeam == "FC Bayern München"
    ensures IsInteresting(m)
  {
    var lower := Lower(m.homeTeam);
    assert lower[3..9] == "bayern" by {
      assert forall k :: 3 <= k < 9 ==> lower[k] == LowerChar(m.homeTeam[k]);
    }
    TopTeamAt(m.homeTeam, 0, 3);
  }

  /** An away side named "Inter Miami" matches through "inter". */
  lemma InterMiamiAwayIsInteresting(m: Match)
    requires m.awayTeam == "Inter Miami"
    ensures IsInteresting(m)
  {
    var lower := Lower(m.awayTeam);
    assert lower[0..5] == "inter" by {
      assert forall k :: 0 <= k < 5 ==> lower[k] == LowerChar(m.awayTeam[k]);
    }
    TopTeamAt(m.awayTeam, 17, 0);
  }
}
