/** The answer-type annotation of addTypeLAT(jcas, fv, type, lat) and addLAT:
    a synthetic plural-noun POS tag over the whole answer text and an LAT
    whose text is the lower-cased property name. */
module AnswerType {
  import opened Features

  /** An NN part-of-speech annotation. */
  datatype Pos = Pos(begin: int, end: int, posValue: string)

  /** An LAT annotation of the class the subclass chose; its base
      annotation is always null here and is not represented. */
  datatype Lat = Lat(latClass: string, begin: int, end: int, pos: Pos, text: string,
                     specificity: real, synset: int)

  /** addLAT: fill in an LAT's fields. */
  function AddLat(latClass: string, begin: int, end: int, text: string, pos: Pos,
                  synset: int, spec: real): Lat
  {
    Lat(latClass, begin, end, pos, text, spec, synset)
  }

  /** addTypeLAT for an answer whose document text is `documentText`. */
  function TypeLat(latClass: string, documentText: string, typeName: string): (Pos, Lat) {
    var ntype := Lower(typeName);
    var len := |documentText|;
    var pos := Pos(0, len, "NNS");
    (pos, AddLat(latClass, 0, len, ntype, pos, 0, 0.0))
  }

  /** The tag spans the whole answer text, carries the lower-cased property
      name, no specificity and no synset, and anchors on its own POS tag. */
  lemma TypeLatShape(latClass: string, documentText: string, typeName: string)
    ensures var (pos, lat) := TypeLat(latClass, documentText, typeName);
      && pos == Pos(0, |documentText|, "NNS")
      && lat.latClass == latClass
      && lat.begin == 0 && lat.end == |documentText| && lat.pos == pos
      && lat.text == Lower(typeName) && IsLowerCase(lat.text) && |lat.text| == |typeName|
      && lat.synset == 0 && lat.specificity == 0.0
  {
    LowerIsLowerCase(typeName);
  }

  /** Two property names give the same tag exactly when they agree up to case. */
  lemma TypeLatIgnoresCase(latClass: string, documentText: string, t1: string, t2: string)
    ensures TypeLat(latClass, documentText, t1) == TypeLat(latClass, documentText, t2)
        <==> Lower(t1) == Lower(t2)
  {
  }
}
