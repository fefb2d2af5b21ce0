/** The answer feature vector (AnswerFV): a map from feature name to weight
    where the last write to a name wins, the feature names the core uses,
    and the ASCII lower-casing used for case-insensitive comparisons. */
module Features {

  type FV = map<string, real>

  const Occurences := "Occurences"
  const ResultLogScore := "ResultLogScore"
  const PropertyScore := "PropertyScore"
  const PropertyGloVeScore := "PropertyGloVeScore"
  const OriginConceptBySubject := "OriginConceptBySubject"
  const OriginConceptByLAT := "OriginConceptByLAT"
  const OriginConceptByNE := "OriginConceptByNE"

  /** The three concept-origin feature names. */
  const ConceptOriginNames: set<string> := {OriginConceptBySubject, OriginConceptByLAT, OriginConceptByNE}

  /** The reference meaning of a feature family: every name in `names` is
      (over)written with `v`, every other feature keeps its weight. */
  function Overwrite(fv: FV, names: set<string>, v: real): (r: FV)
    ensures r.Keys == fv.Keys + names
    ensures forall k :: k in names ==> r[k] == v
    ensures forall k :: k in fv && k !in names ==> r[k] == fv[k]
  {
    map k | k in fv.Keys + names :: if k in names then v else fv[k]
  }

  lemma OverwriteNothing(fv: FV, v: real)
    ensures Overwrite(fv, {}, v) == fv
  {
  }

  /** Two writes of the same weight compose into one write of the union;
      this is what makes the feature families order-independent. */
  lemma OverwriteTwice(fv: FV, a: set<string>, b: set<string>, v: real)
    ensures Overwrite(Overwrite(fv, a, v), b, v) == Overwrite(fv, a + b, v)
  {
  }

  /** One setFeature call is a one-name overwrite. */
  lemma SetIsOverwrite(fv: FV, name: string, v: real)
    ensures fv[name := v] == Overwrite(fv, {name}, v)
  {
  }

  /** The mutable feature vector that propertyToAnswer fills in. */
  class AnswerFV {
    var values: FV

    constructor ()
      ensures values == map[]
    {
      values := map[];
    }

    method SetFeature(name: string, value: real)
      modifies this
      ensures values == old(values)[name := value]
    {
      values := values[name := value];
    }
  }

  /** String.toLowerCase on one character, for ASCII letters. */
  function LowerChar(c: char): char {
    if 'A' <= c <= 'Z' then (c as int + 32) as char else c
  }

  /** String.toLowerCase restricted to ASCII letters: no upper-case letter
      is left, each A-Z becomes the a-z of the same letter, and every other
      character stays as it was. */
  function Lower(s: string): (r: string)
    ensures |r| == |s| && IsLowerCase(r)
    ensures forall k :: 0 <= k < |s| && 'A' <= s[k] <= 'Z' ==>
              'a' <= r[k] <= 'z' && r[k] as int - 'a' as int == s[k] as int - 'A' as int
    ensures forall k :: 0 <= k < |s| && !('A' <= s[k] <= 'Z') ==> r[k] == s[k]
  {
    seq(|s|, k requires 0 <= k < |s| => LowerChar(s[k]))
  }

  predicate IsLowerCase(s: string) {
    forall k :: 0 <= k < |s| ==> !('A' <= s[k] <= 'Z')
  }

  /** Lower-casing leaves no upper-case letter and changes nothing a second time. */
  lemma LowerIsLowerCase(s: string)
    ensures IsLowerCase(Lower(s))
    ensures Lower(Lower(s)) == Lower(s)
  {
  }
}
