/** The candidate answer records: what propertyToAnswer builds from one
    property value and what dummyAnswer builds when there is none. */
module Candidates {
  import opened Types
  import opened Features
  import opened ConceptOrigin
  import opened ClueMatching
  import opened AnswerType

  /** The search-result metadata; None stands for a field left unset. */
  datatype ResultInfo = ResultInfo(
    documentTitle: string,
    source: Option<string>,
    relevance: real,
    isLast: int,
    sourceID: Option<int>,
    origin: string)

  /** The answer metadata: features (None when never set), the isLast flag,
      the answer id, the snippet ids and the resource IRIs. */
  datatype AnswerInfo = AnswerInfo(
    features: Option<FV>,
    isLast: int,
    answerID: Option<int>,
    snippetIDs: seq<int>,
    resources: seq<string>)

  /** The contents of one candidate answer view. */
  datatype Candidate = Candidate(
    text: string,
    language: string,
    resultInfo: ResultInfo,
    answerInfo: AnswerInfo,
    pos: Option<Pos>,
    lat: Option<Lat>)

  /** Every property answer is given full relevance. */
  const Relevance: real := 1.0

  /** The document title of a property answer. */
  function Title(p: PropertyValue): string {
    p.obj + " " + p.property
  }

  /** The title splits back into the object and the property name at the
      separating space right after the object. */
  lemma TitleSplits(p: PropertyValue)
    ensures |Title(p)| == |p.obj| + 1 + |p.property|
    ensures Title(p)[..|p.obj|] == p.obj
    ensures Title(p)[|p.obj|] == ' '
    ensures Title(p)[|p.obj| + 1..] == p.property
  {
  }

  /** The features propertyToAnswer sets itself, before the concept and
      clue families. */
  function BaseFeatures(env: Env, p: PropertyValue, q: Question): FV {
    var f1 := map[][Occurences := 1.0];
    var f2 := f1[ResultLogScore := env.log(1.0 + Relevance)];
    var f3 := f2[p.originFeat := 1.0];
    var f4 := if p.score.Some? then f3[PropertyScore := p.score.value] else f3;
    f4[PropertyGloVeScore := env.relatedness(q.text, p.property)]
  }

  /** The whole feature vector of a property answer, in the order the
      families are written, ending with the subclass's LAT feature. */
  function AnswerFeatures(cfg: SearchConfig, env: Env, p: PropertyValue, q: Question): FV {
    var base := BaseFeatures(env, p, q);
    var concepts := ConceptFeatures(base, q.concepts, p.obj);
    var clues := MatchClues(concepts, p.property, q.clues, cfg.clueFeaturePrefix,
                            cfg.noClueFeature, env.clueMatches);
    clues[cfg.latHook.latFeature := 1.0]
  }

  function PropertyAnswer(cfg: SearchConfig, env: Env, p: PropertyValue, isLast: int,
                          q: Question, ids: Ids): Candidate
  {
    var ri := ResultInfo(Title(p), Some(cfg.sourceName), Relevance, isLast,
                         Some(ids.sourceID), cfg.origin);
    var (pos, lat) := TypeLat(cfg.latHook.latClass, p.value, p.property);
    var resources := if p.valRes.Some? then [p.valRes.value] else [];
    var ai := AnswerInfo(Some(AnswerFeatures(cfg, env, p, q)), 1, Some(ids.answerID),
                         [ids.snippetID], resources);
    Candidate(p.value, "en", ri, ai, Some(pos), Some(lat))
  }

  /** The placeholder answer: empty text and title, no source, no features.
      The Java dummyAnswer ignores its isLast argument and stores the
      counter i instead; its only caller passes i, so the two agree. */
  function DummyAnswer(origin: string, isLast: int): Candidate {
    Candidate("", "en", ResultInfo("", None, 0.0, isLast, None, origin),
              AnswerInfo(None, 1, None, [], []), None, None)
  }

  /** The feature families do not share names: the fixed names, the
      concept-origin names, the origin feature of the fact, the no-clue
      feature, the clue-feature names and the LAT feature. */
  predicate SeparateNamespaces(cfg: SearchConfig, p: PropertyValue, q: Question) {
    var fixed := {Occurences, ResultLogScore, PropertyScore, PropertyGloVeScore} + ConceptOriginNames;
    var clueNames := ClueKeys(q.clues, cfg.clueFeaturePrefix);
    && p.originFeat !in fixed
    && cfg.noClueFeature !in fixed + {p.originFeat}
    && clueNames !! fixed + {p.originFeat, cfg.noClueFeature}
    && cfg.latHook.latFeature !in fixed + {p.originFeat, cfg.noClueFeature} + clueNames
  }

  /** The vector after the concept family, and after the clue family. */
  function ConceptStage(env: Env, p: PropertyValue, q: Question): FV {
    ConceptFeatures(BaseFeatures(env, p, q), q.concepts, p.obj)
  }

  function ClueStage(cfg: SearchConfig, env: Env, p: PropertyValue, q: Question): FV {
    MatchClues(ConceptStage(env, p, q), p.property, q.clues, cfg.clueFeaturePrefix,
               cfg.noClueFeature, env.clueMatches)
  }

  lemma StagesMark(cfg: SearchConfig, env: Env, p: PropertyValue, q: Question)
    ensures ConceptStage(env, p, q) == Overwrite(BaseFeatures(env, p, q), OriginKeys(q.concepts, p.obj), 1.0)
    ensures OriginKeys(q.concepts, p.obj) <= ConceptOriginNames
    ensures var matched := MatchingClues(p.property, q.clues, env.clueMatches);
            && ClueKeys(matched, cfg.clueFeaturePrefix) <= ClueKeys(q.clues, cfg.clueFeaturePrefix)
            && (matched == [] ==> ClueStage(cfg, env, p, q) == ConceptStage(env, p, q)[cfg.noClueFeature := -1.0])
            && (matched != [] ==> ClueStage(cfg, env, p, q)
                                  == Overwrite(ConceptStage(env, p, q), ClueKeys(matched, cfg.clueFeaturePrefix), 1.0))
    ensures AnswerFeatures(cfg, env, p, q) == ClueStage(cfg, env, p, q)[cfg.latHook.latFeature := 1.0]
  {
    ConceptFeaturesMarks(BaseFeatures(env, p, q), q.concepts, p.obj);
    OriginKeysMeaning(q.concepts, p.obj);
    MatchCluesResult(ConceptStage(env, p, q), p.property, q.clues, cfg.clueFeaturePrefix,
                     cfg.noClueFeature, env.clueMatches);
    ClueKeysOfMatching(p.property, q.clues, cfg.clueFeaturePrefix, env.clueMatches);
  }

  /** The feature vector of a property answer holds exactly the fixed
      features, the origin feature, PropertyScore when the fact has a score,
      the origin names of the matching concepts, either the names of the
      matching clues or the no-clue feature, and the LAT feature. */
  lemma AnswerFeaturesKeys(cfg: SearchConfig, env: Env, p: PropertyValue, q: Question)
    ensures var matched := MatchingClues(p.property, q.clues, env.clueMatches);
            AnswerFeatures(cfg, env, p, q).Keys
            == {Occurences, ResultLogScore, p.originFeat, PropertyGloVeScore, cfg.latHook.latFeature}
               + (if p.score.Some? then {PropertyScore} else {})
               + OriginKeys(q.concepts, p.obj)
               + (if matched == [] then {cfg.noClueFeature} else ClueKeys(matched, cfg.clueFeaturePrefix))
  {
    StagesMark(cfg, env, p, q);
  }

  /** A name outside the concept and clue families keeps the weight
      propertyToAnswer gave it itself. */
  lemma BaseFeatureKept(cfg: SearchConfig, env: Env, p: PropertyValue, q: Question, k: string)
    requires k !in ConceptOriginNames && k !in ClueKeys(q.clues, cfg.clueFeaturePrefix)
    requires k != cfg.noClueFeature && k != cfg.latHook.latFeature
    ensures k in AnswerFeatures(cfg, env, p, q) <==> k in BaseFeatures(env, p, q)
    ensures k in BaseFeatures(env, p, q) ==> AnswerFeatures(cfg, env, p, q)[k] == BaseFeatures(env, p, q)[k]
  {
    StagesMark(cfg, env, p, q);
  }

  /** A concept-origin name is present exactly when a matching concept
      flags it, and then it is 1.0. */
  lemma OriginFeatureKept(cfg: SearchConfig, env: Env, p: PropertyValue, q: Question, k: string)
    requires SeparateNamespaces(cfg, p, q) && k in ConceptOriginNames
    ensures k in AnswerFeatures(cfg, env, p, q) <==> k in OriginKeys(q.concepts, p.obj)
    ensures k in OriginKeys(q.concepts, p.obj) ==> AnswerFeatures(cfg, env, p, q)[k] == 1.0
  {
    StagesMark(cfg, env, p, q);
  }

  /** The no-clue feature is present exactly when no clue matches, and is
      then -1.0; otherwise every name of a matching clue is 1.0. */
  lemma ClueFeaturesKept(cfg: SearchConfig, env: Env, p: PropertyValue, q: Question)
    requires SeparateNamespaces(cfg, p, q)
    ensures var matched := MatchingClues(p.property, q.clues, env.clueMatches);
            var r := AnswerFeatures(cfg, env, p, q);
            && (cfg.noClueFeature in r <==> matched == [])
            && (matched == [] ==> r[cfg.noClueFeature] == -1.0)
            && (forall k :: k in ClueKeys(matched, cfg.clueFeaturePrefix) ==> k in r && r[k] == 1.0)
  {
    StagesMark(cfg, env, p, q);
  }

  /** With separate namespaces every family keeps the weight it writes:
      Occurences 1.0, ResultLogScore log(1 + relevance), the origin feature
      1.0, PropertyScore exactly when the fact has a score, the GloVe score,
      the concept-origin and clue families, and the LAT feature 1.0. */
  lemma AnswerFeaturesValues(cfg: SearchConfig, env: Env, p: PropertyValue, q: Question)
    requires SeparateNamespaces(cfg, p, q)
    ensures var r := AnswerFeatures(cfg, env, p, q);
            && Occurences in r && r[Occurences] == 1.0
            && ResultLogScore in r && r[ResultLogScore] == env.log(1.0 + Relevance)
            && p.originFeat in r && r[p.originFeat] == 1.0
            && (PropertyScore in r <==> p.score.Some?)
            && (p.score.Some? ==> r[PropertyScore] == p.score.value)
            && PropertyGloVeScore in r && r[PropertyGloVeScore] == env.relatedness(q.text, p.property)
            && (OriginConceptBySubject in r <==> OriginConceptBySubject in OriginKeys(q.concepts, p.obj))
            && (OriginConceptByLAT in r <==> OriginConceptByLAT in OriginKeys(q.concepts, p.obj))
            && (OriginConceptByNE in r <==> OriginConceptByNE in OriginKeys(q.concepts, p.obj))
            && cfg.latHook.latFeature in r && r[cfg.latHook.latFeature] == 1.0
  {
    BaseFeatureKept(cfg, env, p, q, Occurences);
    BaseFeatureKept(cfg, env, p, q, ResultLogScore);
    BaseFeatureKept(cfg, env, p, q, p.originFeat);
    BaseFeatureKept(cfg, env, p, q, PropertyScore);
    BaseFeatureKept(cfg, env, p, q, PropertyGloVeScore);
    OriginFeatureKept(cfg, env, p, q, OriginConceptBySubject);
    OriginFeatureKept(cfg, env, p, q, OriginConceptByLAT);
    OriginFeatureKept(cfg, env, p, q, OriginConceptByNE);
  }

  /** A property answer carries the value as its text, the object and the
      property as its title, the given isLast in its result info, 1 as the
      answer's isLast, the supplied ids, the value resource when there is
      one, and the type tag of the property name over the value. */
  lemma PropertyAnswerShape(cfg: SearchConfig, env: Env, p: PropertyValue, isLast: int,
                            q: Question, ids: Ids)
    ensures var c := PropertyAnswer(cfg, env, p, isLast, q, ids);
      && c.text == p.value
      && c.resultInfo == ResultInfo(p.obj + " " + p.property, Some(cfg.sourceName), 1.0,
                                    isLast, Some(ids.sourceID), cfg.origin)
      && c.answerInfo.features == Some(AnswerFeatures(cfg, env, p, q))
      && c.answerInfo.isLast == 1
      && c.answerInfo.answerID == Some(ids.answerID)
      && c.answerInfo.snippetIDs == [ids.snippetID]
      && (c.answerInfo.resources != [] <==> p.valRes.Some?)
      && (p.valRes.Some? ==> c.answerInfo.resources == [p.valRes.value])
      && c.lat.Some? && c.lat.value.text == Lower(p.property)
      && c.lat.value.begin == 0 && c.lat.value.end == |c.text|
  {
    TypeLatShape(cfg.latHook.latClass, p.value, p.property);
  }

  /** The placeholder has an empty text and title, the given isLast, no
      source id, no features and an answer isLast of 1. */
  lemma DummyAnswerShape(origin: string, isLast: int)
    ensures var c := DummyAnswer(origin, isLast);
      && c.text == "" && c.resultInfo.documentTitle == ""
      && c.resultInfo.isLast == isLast && c.resultInfo.sourceID.None?
      && c.resultInfo.origin == origin
      && c.answerInfo.features.None? && c.answerInfo.isLast == 1
      && c.answerInfo.snippetIDs == [] && c.lat.None?
  {
  }
}
