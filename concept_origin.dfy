/** The concept-origin features of addConceptFeatures: every question
    concept whose lower-cased label equals the lower-cased object of the
    fact marks the origin flags it carries. */
module ConceptOrigin {
  import opened Types
  import opened Features

  predicate LabelMatches(c: Concept, text: string) {
    Lower(c.cookedLabel) == Lower(text)
  }

  /** The origin feature names a concept's flags select. */
  function OriginNames(c: Concept): (r: set<string>)
    ensures r <= ConceptOriginNames
    ensures OriginConceptBySubject in r <==> c.bySubject
    ensures OriginConceptByLAT in r <==> c.byLAT
    ensures OriginConceptByNE in r <==> c.byNE
  {
    (if c.bySubject then {OriginConceptBySubject} else {})
    + (if c.byLAT then {OriginConceptByLAT} else {})
    + (if c.byNE then {OriginConceptByNE} else {})
  }

  /** One pass of the loop body: skip a concept whose label does not match,
      else set each flagged feature to 1.0 in the order the source does. */
  function MarkConcept(fv: FV, c: Concept, text: string): FV {
    if !LabelMatches(c, text) then fv
    else
      var f1 := if c.bySubject then fv[OriginConceptBySubject := 1.0] else fv;
      var f2 := if c.byLAT then f1[OriginConceptByLAT := 1.0] else f1;
      if c.byNE then f2[OriginConceptByNE := 1.0] else f2
  }

  /** The feature vector after the loop has visited the concepts `cs` in order. */
  function ConceptFeatures(fv: FV, cs: seq<Concept>, text: string): FV
    decreases |cs|
  {
    if cs == [] then fv
    else MarkConcept(ConceptFeatures(fv, cs[..|cs| - 1], text), cs[|cs| - 1], text)
  }

  /** The origin names selected by the concepts of `cs` that match `text`. */
  function OriginKeys(cs: seq<Concept>, text: string): set<string>
    decreases |cs|
  {
    if cs == [] then {}
    else
      var c := cs[|cs| - 1];
      OriginKeys(cs[..|cs| - 1], text) + (if LabelMatches(c, text) then OriginNames(c) else {})
  }

  lemma MarkConceptMarks(fv: FV, c: Concept, text: string)
    ensures MarkConcept(fv, c, text)
         == Overwrite(fv, if LabelMatches(c, text) then OriginNames(c) else {}, 1.0)
  {
  }

  /** addConceptFeatures sets exactly the origin names of the matching
      concepts to 1.0; non-matching concepts leave the vector untouched. */
  lemma {:induction false} ConceptFeaturesMarks(fv: FV, cs: seq<Concept>, text: string)
    ensures ConceptFeatures(fv, cs, text) == Overwrite(fv, OriginKeys(cs, text), 1.0)
    decreases |cs|
  {
    if cs == [] {
      OverwriteNothing(fv, 1.0);
    } else {
      var pre, c := cs[..|cs| - 1], cs[|cs| - 1];
      var names := if LabelMatches(c, text) then OriginNames(c) else {};
      ConceptFeaturesMarks(fv, pre, text);
      MarkConceptMarks(ConceptFeatures(fv, pre, text), c, text);
      OverwriteTwice(fv, OriginKeys(pre, text), names, 1.0);
    }
  }

  /** An origin feature is selected exactly when some matching concept
      carries the corresponding flag. */
  lemma {:induction false} OriginKeysMeaning(cs: seq<Concept>, text: string)
    ensures OriginKeys(cs, text) <= ConceptOriginNames
    ensures OriginConceptBySubject in OriginKeys(cs, text)
        <==> exists j :: 0 <= j < |cs| && LabelMatches(cs[j], text) && cs[j].bySubject
    ensures OriginConceptByLAT in OriginKeys(cs, text)
        <==> exists j :: 0 <= j < |cs| && LabelMatches(cs[j], text) && cs[j].byLAT
    ensures OriginConceptByNE in OriginKeys(cs, text)
        <==> exists j :: 0 <= j < |cs| && LabelMatches(cs[j], text) && cs[j].byNE
    decreases |cs|
  {
    if cs != [] {
      var pre, c := cs[..|cs| - 1], cs[|cs| - 1];
      OriginKeysMeaning(pre, text);
      assert forall j :: 0 <= j < |pre| ==> pre[j] == cs[j];
      assert cs[|cs| - 1] == c;
    }
  }

  /** Running addConceptFeatures a second time changes nothing. */
  lemma ConceptFeaturesIdempotent(fv: FV, cs: seq<Concept>, text: string)
    ensures ConceptFeatures(ConceptFeatures(fv, cs, text), cs, text) == ConceptFeatures(fv, cs, text)
  {
    var keys := OriginKeys(cs, text);
    ConceptFeaturesMarks(fv, cs, text);
    ConceptFeaturesMarks(ConceptFeatures(fv, cs, text), cs, text);
    OverwriteTwice(fv, keys, keys, 1.0);
    assert keys + keys == keys;
  }

  /** A concept labelled "Einstein" nominated only by the LAT heuristic,
      for a fact about "einstein", yields OriginConceptByLAT alone. */
  lemma EinsteinByLAT()
    ensures ConceptFeatures(map[], [Concept("Einstein", false, true, false)], "einstein")
         == map[OriginConceptByLAT := 1.0]
  {
    var c := Concept("Einstein", false, true, false);
    assert [c][..0] == [];
    assert Lower("Einstein") == "einstein";
    assert Lower("einstein") == "einstein";
  }
}
