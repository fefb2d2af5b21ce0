/** The entities that the structured primary search reads: the question's
    concepts and clues, the property-value facts returned for a concept,
    and the collaborators it calls but does not define. */
module Types {

  datatype Option<T> = None | Some(value: T)

  /** A question concept; its cooked label and the three heuristics that
      may have nominated it. */
  datatype Concept = Concept(cookedLabel: string, bySubject: bool, byLAT: bool, byNE: bool)

  /** The clue subclasses that clueAnswerFeatures tells apart: a ClueSubject,
      a ClueConcept with the concepts it refers to, and every other clue type. */
  datatype ClueKind = Subject | ConceptRef(concepts: seq<Concept>) | Plain

  /** A question clue: the short name of its annotation type, its kind and
      the text its match pattern is built from. */
  datatype Clue = Clue(shortName: string, kind: ClueKind, text: string)

  /** The question view: its document text, then its Concept and Clue
      annotations in index order. */
  datatype Question = Question(text: string, concepts: seq<Concept>, clues: seq<Clue>)

  /** A fact from the structured source (PropertyValue): the object it is
      about, the property name, the value, an optional value resource IRI,
      the origin feature to mark, and an optional score (null in Java). */
  datatype PropertyValue = PropertyValue(
    obj: string,
    property: string,
    value: string,
    valRes: Option<string>,
    originFeat: string,
    score: Option<real>)

  /** What a concrete subclass's addTypeLAT(jcas, fv, type) adds: one LAT
      feature set to 1.0 and an LAT annotation of its own class. */
  datatype LatHook = LatHook(latClass: string, latFeature: string)

  /** Per-subclass configuration: the constructor arguments (source name,
      clue feature prefix, no-clue feature), the canonical class name used
      as origin, and the type-LAT hook. */
  datatype SearchConfig = SearchConfig(
    sourceName: string,
    clueFeaturePrefix: string,
    noClueFeature: string,
    origin: string,
    latHook: LatHook)

  /** Collaborators the core calls without seeing their code:
      the subclass's getConceptProperties, the GloVe relatedness scorer,
      the clue regex match (name.matches(getClueRegex(clue))) and Math.log. */
  datatype Env = Env(
    getConceptProperties: (Question, Concept) -> seq<PropertyValue>,
    relatedness: (string, string) -> real,
    clueMatches: (string, Clue) -> bool,
    log: real -> real)

  /** Identifiers handed out by the question dashboard (answer source id)
      and by the snippet and answer id generators. */
  datatype Ids = Ids(sourceID: int, snippetID: int, answerID: int)
}
