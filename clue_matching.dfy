/** Clue matching in a property name (matchCluesInName and
    clueAnswerFeatures), and the clue count of the training dump. The
    regex match of a clue against a name is the collaborator `matches`. */
module ClueMatching {
  import opened Types
  import opened Features

  /** The clue-type names a concept referenced by a ClueConcept selects. */
  function ConceptClueNames(c: Concept, prefix: string): (r: set<string>)
    ensures prefix + "ClueSubject" in r <==> c.bySubject
    ensures prefix + "ClueLAT" in r <==> c.byLAT
    ensures prefix + "ClueNE" in r <==> c.byNE
    ensures r <= {prefix + "ClueSubject", prefix + "ClueLAT", prefix + "ClueNE"}
  {
    ClueTypeNamesDistinct(prefix);
    (if c.bySubject then {prefix + "ClueSubject"} else {})
    + (if c.byLAT then {prefix + "ClueLAT"} else {})
    + (if c.byNE then {prefix + "ClueNE"} else {})
  }

  /** The three concept clue-type names differ in their fifth letter after the prefix. */
  lemma ClueTypeNamesDistinct(prefix: string)
    ensures prefix + "ClueSubject" != prefix + "ClueLAT"
    ensures prefix + "ClueSubject" != prefix + "ClueNE"
    ensures prefix + "ClueLAT" != prefix + "ClueNE"
  {
    assert (prefix + "ClueSubject")[|prefix| + 4] == 'S';
    assert (prefix + "ClueLAT")[|prefix| + 4] == 'L';
    assert (prefix + "ClueNE")[|prefix| + 4] == 'N';
  }

  function ConceptClueKeys(cs: seq<Concept>, prefix: string): set<string>
    decreases |cs|
  {
    if cs == [] then {}
    else ConceptClueKeys(cs[..|cs| - 1], prefix) + ConceptClueNames(cs[|cs| - 1], prefix)
  }

  /** All feature names one matching clue sets. */
  function ClueNames(clue: Clue, prefix: string): (r: set<string>)
    ensures prefix + clue.shortName in r
    ensures clue.kind.Subject? ==> prefix + "ClueSubject" in r
  {
    {prefix + clue.shortName}
    + match clue.kind
      case Subject => {prefix + "ClueSubject"}
      case ConceptRef(cs) => ConceptClueKeys(cs, prefix)
      case Plain => {}
  }

  function ClueKeys(clues: seq<Clue>, prefix: string): set<string>
    decreases |clues|
  {
    if clues == [] then {}
    else ClueKeys(clues[..|clues| - 1], prefix) + ClueNames(clues[|clues| - 1], prefix)
  }

  /** The clues whose pattern matches `name`, in index order. */
  function MatchingClues(name: string, clues: seq<Clue>, matches: (string, Clue) -> bool): seq<Clue>
    decreases |clues|
  {
    if clues == [] then []
    else
      var c := clues[|clues| - 1];
      MatchingClues(name, clues[..|clues| - 1], matches) + (if matches(name, c) then [c] else [])
  }

  /** One pass of the loop over a ClueConcept's concepts. */
  function MarkConceptClue(fv: FV, c: Concept, prefix: string): FV {
    var f1 := if c.bySubject then fv[prefix + "ClueSubject" := 1.0] else fv;
    var f2 := if c.byLAT then f1[prefix + "ClueLAT" := 1.0] else f1;
    if c.byNE then f2[prefix + "ClueNE" := 1.0] else f2
  }

  function ConceptClueFeatures(fv: FV, cs: seq<Concept>, prefix: string): FV
    decreases |cs|
  {
    if cs == [] then fv
    else MarkConceptClue(ConceptClueFeatures(fv, cs[..|cs| - 1], prefix), cs[|cs| - 1], prefix)
  }

  /** clueAnswerFeatures: the clue's type, then the subclass-specific names. */
  function ClueFeatures(fv: FV, clue: Clue, prefix: string): FV {
    var f1 := fv[prefix + clue.shortName := 1.0];
    match clue.kind
    case Subject => f1[prefix + "ClueSubject" := 1.0]
    case ConceptRef(cs) => ConceptClueFeatures(f1, cs, prefix)
    case Plain => f1
  }

  /** The loop of matchCluesInName over the clues seen so far: the vector
      and the clueMatched flag. */
  function ClueScan(fv: FV, name: string, clues: seq<Clue>, prefix: string,
                    matches: (string, Clue) -> bool): (FV, bool)
    decreases |clues|
  {
    if clues == [] then (fv, false)
    else
      var (f, matched) := ClueScan(fv, name, clues[..|clues| - 1], prefix, matches);
      var c := clues[|clues| - 1];
      if !matches(name, c) then (f, matched) else (ClueFeatures(f, c, prefix), true)
  }

  /** matchCluesInName: the scan, then the no-clue bias if nothing matched. */
  function MatchClues(fv: FV, name: string, clues: seq<Clue>, prefix: string, noClue: string,
                      matches: (string, Clue) -> bool): FV
  {
    var (f, matched) := ClueScan(fv, name, clues, prefix, matches);
    if !matched then f[noClue := -1.0] else f
  }

  lemma MarkConceptClueMarks(fv: FV, c: Concept, prefix: string)
    ensures MarkConceptClue(fv, c, prefix) == Overwrite(fv, ConceptClueNames(c, prefix), 1.0)
  {
  }

  lemma {:induction false} ConceptClueFeaturesMarks(fv: FV, cs: seq<Concept>, prefix: string)
    ensures ConceptClueFeatures(fv, cs, prefix) == Overwrite(fv, ConceptClueKeys(cs, prefix), 1.0)
    decreases |cs|
  {
    if cs == [] {
      OverwriteNothing(fv, 1.0);
    } else {
      var pre, c := cs[..|cs| - 1], cs[|cs| - 1];
      ConceptClueFeaturesMarks(fv, pre, prefix);
      MarkConceptClueMarks(ConceptClueFeatures(fv, pre, prefix), c, prefix);
      OverwriteTwice(fv, ConceptClueKeys(pre, prefix), ConceptClueNames(c, prefix), 1.0);
    }
  }

  /** clueAnswerFeatures sets exactly the clue's names to 1.0. */
  lemma ClueFeaturesMarks(fv: FV, clue: Clue, prefix: string)
    ensures ClueFeatures(fv, clue, prefix) == Overwrite(fv, ClueNames(clue, prefix), 1.0)
  {
    var f1 := fv[prefix + clue.shortName := 1.0];
    SetIsOverwrite(fv, prefix + clue.shortName, 1.0);
    match clue.kind
    case Subject =>
      SetIsOverwrite(f1, prefix + "ClueSubject", 1.0);
      OverwriteTwice(fv, {prefix + clue.shortName}, {prefix + "ClueSubject"}, 1.0);
    case ConceptRef(cs) =>
      ConceptClueFeaturesMarks(f1, cs, prefix);
      OverwriteTwice(fv, {prefix + clue.shortName}, ConceptClueKeys(cs, prefix), 1.0);
    case Plain =>
  }

  /** The scan sets exactly the names of the matching clues, and its flag
      says whether any clue matched. */
  lemma {:induction false} ClueScanMarks(fv: FV, name: string, clues: seq<Clue>, prefix: string,
                                         matches: (string, Clue) -> bool)
    ensures ClueScan(fv, name, clues, prefix, matches).0
         == Overwrite(fv, ClueKeys(MatchingClues(name, clues, matches), prefix), 1.0)
    ensures ClueScan(fv, name, clues, prefix, matches).1 <==> MatchingClues(name, clues, matches) != []
    decreases |clues|
  {
    if clues == [] {
      OverwriteNothing(fv, 1.0);
    } else {
      var pre, c := clues[..|clues| - 1], clues[|clues| - 1];
      var m := MatchingClues(name, pre, matches);
      var scan := ClueScan(fv, name, pre, prefix, matches);
      ClueScanMarks(fv, name, pre, prefix, matches);
      if matches(name, c) {
        assert MatchingClues(name, clues, matches) == m + [c];
        assert ClueScan(fv, name, clues, prefix, matches) == (ClueFeatures(scan.0, c, prefix), true);
        ClueKeysAppend(m, c, prefix);
        ClueFeaturesMarks(scan.0, c, prefix);
        OverwriteTwice(fv, ClueKeys(m, prefix), ClueNames(c, prefix), 1.0);
      } else {
        assert m + [] == m;
        assert MatchingClues(name, clues, matches) == m;
        assert ClueScan(fv, name, clues, prefix, matches) == scan;
      }
    }
  }

  lemma ClueKeysAppend(xs: seq<Clue>, c: Clue, prefix: string)
    ensures ClueKeys(xs + [c], prefix) == ClueKeys(xs, prefix) + ClueNames(c, prefix)
  {
    assert (xs + [c])[..|xs + [c]| - 1] == xs;
  }

  /** What matchCluesInName leaves: the no-clue bias alone when no clue
      matches, otherwise exactly the names of the matching clues at 1.0. */
  lemma MatchCluesResult(fv: FV, name: string, clues: seq<Clue>, prefix: string, noClue: string,
                         matches: (string, Clue) -> bool)
    ensures MatchingClues(name, clues, matches) == []
        ==> MatchClues(fv, name, clues, prefix, noClue, matches) == fv[noClue := -1.0]
    ensures MatchingClues(name, clues, matches) != [] ==>
              MatchClues(fv, name, clues, prefix, noClue, matches)
              == Overwrite(fv, ClueKeys(MatchingClues(name, clues, matches), prefix), 1.0)
  {
    ClueScanMarks(fv, name, clues, prefix, matches);
    if MatchingClues(name, clues, matches) == [] {
      assert ClueKeys([], prefix) == {};
      OverwriteNothing(fv, 1.0);
    }
  }

  /** A clue is counted exactly when it is one of the clues and it matches. */
  lemma {:induction false} MatchingCluesMeaning(name: string, clues: seq<Clue>, matches: (string, Clue) -> bool)
    ensures |MatchingClues(name, clues, matches)| <= |clues|
    ensures forall x :: x in MatchingClues(name, clues, matches) <==> x in clues && matches(name, x)
    decreases |clues|
  {
    if clues != [] {
      var pre := clues[..|clues| - 1];
      MatchingCluesMeaning(name, pre, matches);
      assert clues == pre + [clues[|clues| - 1]];
    }
  }

  /** A name is a clue-feature name exactly when one of the clues selects it. */
  lemma {:induction false} ClueKeysMeaning(clues: seq<Clue>, prefix: string)
    ensures forall k :: k in ClueKeys(clues, prefix)
                    <==> exists j :: 0 <= j < |clues| && k in ClueNames(clues[j], prefix)
    decreases |clues|
  {
    if clues != [] {
      var pre := clues[..|clues| - 1];
      ClueKeysMeaning(pre, prefix);
      assert forall j :: 0 <= j < |pre| ==> pre[j] == clues[j];
    }
  }

  /** The names the matching clues set are among those of all the clues. */
  lemma ClueKeysOfMatching(name: string, clues: seq<Clue>, prefix: string, matches: (string, Clue) -> bool)
    ensures ClueKeys(MatchingClues(name, clues, matches), prefix) <= ClueKeys(clues, prefix)
  {
    var ms := MatchingClues(name, clues, matches);
    MatchingCluesMeaning(name, clues, matches);
    ClueKeysMeaning(ms, prefix);
    ClueKeysMeaning(clues, prefix);
    forall k | k in ClueKeys(ms, prefix) ensures k in ClueKeys(clues, prefix) {
      var j :| 0 <= j < |ms| && k in ClueNames(ms[j], prefix);
      assert ms[j] in clues;
      var i :| 0 <= i < |clues| && clues[i] == ms[j];
    }
  }

  /** A matching ClueSubject marks prefix + "ClueSubject" at 1.0. */
  lemma SubjectClueMarked(fv: FV, name: string, clues: seq<Clue>, prefix: string, noClue: string,
                          matches: (string, Clue) -> bool, c: Clue)
    requires c in clues && c.kind.Subject? && matches(name, c)
    ensures prefix + "ClueSubject" in MatchClues(fv, name, clues, prefix, noClue, matches)
    ensures MatchClues(fv, name, clues, prefix, noClue, matches)[prefix + "ClueSubject"] == 1.0
  {
    var ms := MatchingClues(name, clues, matches);
    MatchingCluesMeaning(name, clues, matches);
    assert c in ms;
    var j :| 0 <= j < |ms| && ms[j] == c;
    ClueKeysMeaning(ms, prefix);
    assert prefix + "ClueSubject" in ClueKeys(ms, prefix);
    MatchCluesResult(fv, name, clues, prefix, noClue, matches);
  }

  /** When the no-clue name is used by nothing else, it is present exactly
      when no clue matches, and then it is -1.0. */
  lemma NoClueExactlyWhenUnmatched(fv: FV, name: string, clues: seq<Clue>, prefix: string, noClue: string,
                                   matches: (string, Clue) -> bool)
    requires noClue !in fv && noClue !in ClueKeys(clues, prefix)
    ensures noClue in MatchClues(fv, name, clues, prefix, noClue, matches)
        <==> MatchingClues(name, clues, matches) == []
    ensures MatchingClues(name, clues, matches) == []
        ==> MatchClues(fv, name, clues, prefix, noClue, matches)[noClue] == -1.0
  {
    MatchCluesResult(fv, name, clues, prefix, noClue, matches);
    ClueKeysOfMatching(name, clues, prefix, matches);
  }

  /** Running matchCluesInName twice gives the vector of one run. */
  lemma MatchCluesIdempotent(fv: FV, name: string, clues: seq<Clue>, prefix: string, noClue: string,
                             matches: (string, Clue) -> bool)
    ensures MatchClues(MatchClues(fv, name, clues, prefix, noClue, matches), name, clues, prefix, noClue, matches)
         == MatchClues(fv, name, clues, prefix, noClue, matches)
  {
    var once := MatchClues(fv, name, clues, prefix, noClue, matches);
    MatchCluesResult(fv, name, clues, prefix, noClue, matches);
    MatchCluesResult(once, name, clues, prefix, noClue, matches);
    var keys := ClueKeys(MatchingClues(name, clues, matches), prefix);
    OverwriteTwice(fv, keys, keys, 1.0);
    assert keys + keys == keys;
  }

  /** The clue count of createPropertyLabels: how many clues match the
      property text. */
  method CountMatchingClues(proptext: string, clues: seq<Clue>, matches: (string, Clue) -> bool)
    returns (count: nat)
    ensures count == |MatchingClues(proptext, clues, matches)|
  {
    count := 0;
    for k := 0 to |clues|
      invariant count == |MatchingClues(proptext, clues[..k], matches)|
    {
      assert clues[..k + 1][..k] == clues[..k];
      if matches(proptext, clues[k]) {
        count := count + 1;
      }
    }
    assert clues[..|clues|] == clues;
  }

  /** The dumped clue count is zero exactly when matchCluesInName applies
      the no-clue bias. */
  lemma ClueCountZeroIffNoClue(fv: FV, name: string, clues: seq<Clue>, prefix: string,
                               matches: (string, Clue) -> bool)
    ensures |MatchingClues(name, clues, matches)| == 0 <==> !ClueScan(fv, name, clues, prefix, matches).1
  {
    ClueScanMarks(fv, name, clues, prefix, matches);
  }
}
