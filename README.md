# Structured primary search, modelled in Dafny

This project models `StructuredPrimarySearch`, the YodaQA pipeline stage that
turns one question into a stream of candidate answers. It asks a structured
knowledge source for property-value facts about each question concept.
Each fact becomes one candidate answer CAS with a scored feature vector and a
type annotation. When there are no facts, the stage still emits exactly one
placeholder answer, so the flow never stalls.

Modules:

- `Types` (types.dfy): concepts, clues, the question view, property values.
  It also holds the subclass configuration and the collaborators the class
  calls but does not define (`Env`).
- `Features` (features.dfy): the feature vector as a `map<string, real>`
  with last-write-wins updates (`AnswerFV`). `Overwrite` is the reference
  meaning of one feature family ("these names become v, the rest stay").
  The module also has ASCII lower-casing.
- `ConceptOrigin` (concept_origin.dfy): `addConceptFeatures` as a
  specification function, with lemmas.
- `ClueMatching` (clue_matching.dfy): `matchCluesInName` and
  `clueAnswerFeatures` as specification functions, with lemmas. It also has
  the counting loop of the training dump.
- `AnswerType` (type_lat.dfy): `addTypeLAT(jcas, fv, type, lat)` and `addLAT`.
- `Candidates` (candidate.dfy): the answer records built by
  `propertyToAnswer` and `dummyAnswer`, and what their feature vectors hold.
- `Generation` (generator.dfy): the multiplier class with `Process`,
  `HasNext` and `Next`, and the imperative helpers that fill the feature
  vector in place. Each helper is proved against the specification function
  of its module. The module also has the step schedule of one cycle and
  `getCasInstancesRequired`.

Notes on the code (line numbers refer to `src/main/java/cz/brmlab/yodaqa/pipeline/structured/StructuredPrimarySearch.java`):

- The relatedness feature is named `PropertyGloVeScore` (line 177).
- The ResultInfo `isLast` is a Java `int` (lines 147 and 210). It is the
  counter `i` on the final answer and 0 on every earlier one.
- The title is the property's object, a space, and the property name
  (line 153).
- `next` does not reject a call after the cycle is over. It builds one more
  placeholder with `isLast = i` (lines 112-126). `StepAt` models that case
  as well.
- `dummyAnswer` ignores its `isLast` parameter and stores the field `i`
  (line 219). Its only caller passes `i` (line 125), so the model's
  `DummyAnswer` takes the value as an argument.

## Model

| member | source | states |
|---|---|---|
| Features.Lower | src/main/java/cz/brmlab/yodaqa/pipeline/structured/StructuredPrimarySearch.java:256 | the lower-cased name has the same length and no upper-case letter; each A-Z becomes the same letter in a-z and every other character is kept |
| Features.LowerIsLowerCase | src/main/java/cz/brmlab/yodaqa/pipeline/structured/StructuredPrimarySearch.java:230 | a lower-cased string has no upper-case letter, and lower-casing it again changes nothing |
| ConceptOrigin.OriginNames | src/main/java/cz/brmlab/yodaqa/pipeline/structured/StructuredPrimarySearch.java:234-239 | a concept selects OriginConceptBySubject/ByLAT/ByNE exactly for the flags it carries |
| ConceptOrigin.MarkConceptMarks | src/main/java/cz/brmlab/yodaqa/pipeline/structured/StructuredPrimarySearch.java:230-239 | one loop pass sets the concept's flagged origin names to 1.0 when its label matches case-insensitively, and changes nothing otherwise |
| ConceptOrigin.ConceptFeaturesMarks | src/main/java/cz/brmlab/yodaqa/pipeline/structured/StructuredPrimarySearch.java:227-241 | the whole loop sets exactly the origin names of the matching concepts to 1.0 and keeps every other weight |
| ConceptOrigin.OriginKeysMeaning | src/main/java/cz/brmlab/yodaqa/pipeline/structured/StructuredPrimarySearch.java:229-240 | each origin feature is set if and only if some concept with a matching label carries that flag |
| ConceptOrigin.ConceptFeaturesIdempotent | src/main/java/cz/brmlab/yodaqa/pipeline/structured/StructuredPrimarySearch.java:227-241 | running the concept loop twice gives the vector of one run |
| ConceptOrigin.EinsteinByLAT | src/main/java/cz/brmlab/yodaqa/pipeline/structured/StructuredPrimarySearch.java:229-237 | label "Einstein" flagged byLAT only, with object "einstein", yields OriginConceptByLAT = 1.0 and nothing else |
| ClueMatching.ConceptClueNames | src/main/java/cz/brmlab/yodaqa/pipeline/structured/StructuredPrimarySearch.java:306-311 | a concept of a ClueConcept selects prefix+ClueSubject/ClueLAT/ClueNE exactly for its flags |
| ClueMatching.ClueNames | src/main/java/cz/brmlab/yodaqa/pipeline/structured/StructuredPrimarySearch.java:301-303 | a clue always selects prefix + its short type name, and a ClueSubject also selects prefix + "ClueSubject" |
| ClueMatching.MarkConceptClueMarks | src/main/java/cz/brmlab/yodaqa/pipeline/structured/StructuredPrimarySearch.java:306-311 | one pass over a referenced concept sets its selected clue names to 1.0 |
| ClueMatching.ConceptClueFeaturesMarks | src/main/java/cz/brmlab/yodaqa/pipeline/structured/StructuredPrimarySearch.java:305-312 | the loop over a ClueConcept's concepts sets exactly the union of their selected names to 1.0 |
| ClueMatching.ClueFeaturesMarks | src/main/java/cz/brmlab/yodaqa/pipeline/structured/StructuredPrimarySearch.java:300-314 | clueAnswerFeatures sets exactly the clue's names to 1.0 and keeps every other weight |
| ClueMatching.ClueKeysAppend | src/main/java/cz/brmlab/yodaqa/pipeline/structured/StructuredPrimarySearch.java:286-291 | the names of one more clue add to the names of the clues before it |
| ClueMatching.ClueScanMarks | src/main/java/cz/brmlab/yodaqa/pipeline/structured/StructuredPrimarySearch.java:285-291 | the clue loop sets exactly the names of the matching clues to 1.0, and clueMatched is true if and only if some clue matches |
| ClueMatching.MatchCluesResult | src/main/java/cz/brmlab/yodaqa/pipeline/structured/StructuredPrimarySearch.java:284-294 | with no matching clue, the only change is noClueFeature = -1.0; otherwise exactly the matching clues' names become 1.0 |
| ClueMatching.MatchingCluesMeaning | src/main/java/cz/brmlab/yodaqa/pipeline/structured/StructuredPrimarySearch.java:286-288 | a clue is among the matching clues if and only if it is a question clue whose pattern matches the name |
| ClueMatching.ClueKeysMeaning | src/main/java/cz/brmlab/yodaqa/pipeline/structured/StructuredPrimarySearch.java:300-314 | a name is a clue-feature name of some clues if and only if one of those clues selects it |
| ClueMatching.ClueKeysOfMatching | src/main/java/cz/brmlab/yodaqa/pipeline/structured/StructuredPrimarySearch.java:286-290 | the names set for the matching clues are among the names of all question clues |
| ClueMatching.SubjectClueMarked | src/main/java/cz/brmlab/yodaqa/pipeline/structured/StructuredPrimarySearch.java:302-303 | a matching ClueSubject leaves prefix + "ClueSubject" = 1.0 |
| ClueMatching.NoClueExactlyWhenUnmatched | src/main/java/cz/brmlab/yodaqa/pipeline/structured/StructuredPrimarySearch.java:292-293 | when no other family uses the no-clue name, it is present if and only if no clue matches, and it is then -1.0 |
| ClueMatching.MatchCluesIdempotent | src/main/java/cz/brmlab/yodaqa/pipeline/structured/StructuredPrimarySearch.java:284-294 | running matchCluesInName twice on the same name and clues gives the vector of one run |
| ClueMatching.CountMatchingClues | src/main/java/cz/brmlab/yodaqa/pipeline/structured/StructuredPrimarySearch.java:331-337 | the dump's counting loop returns the number of clues whose pattern matches the property text |
| ClueMatching.ClueCountZeroIffNoClue | src/main/java/cz/brmlab/yodaqa/pipeline/structured/StructuredPrimarySearch.java:332-337 | the dumped clue count is 0 if and only if matchCluesInName's clueMatched stays false, so the no-clue bias is applied |
| AnswerType.TypeLatShape | src/main/java/cz/brmlab/yodaqa/pipeline/structured/StructuredPrimarySearch.java:255-281 | the POS tag is NNS over [0, len); the LAT spans [0, len) of the answer text, anchors on that tag, has the lower-cased property name as text, synset 0 and specificity 0.0 |
| AnswerType.TypeLatIgnoresCase | src/main/java/cz/brmlab/yodaqa/pipeline/structured/StructuredPrimarySearch.java:256 | two property names give the same type annotation if and only if they agree up to case |
| Candidates.TitleSplits | src/main/java/cz/brmlab/yodaqa/pipeline/structured/StructuredPrimarySearch.java:153 | the title is the object, one space, then the property name, and splits back into the two |
| Candidates.StagesMark | src/main/java/cz/brmlab/yodaqa/pipeline/structured/StructuredPrimarySearch.java:170-187 | each feature family of propertyToAnswer, in order, writes exactly its own names and keeps earlier weights |
| Candidates.AnswerFeaturesKeys | src/main/java/cz/brmlab/yodaqa/pipeline/structured/StructuredPrimarySearch.java:170-187 | the vector's names are the fixed ones, the origin feature, PropertyScore when there is a score, the matching concepts' origin names, either the matching clues' names or the no-clue name, and the LAT feature |
| Candidates.BaseFeatureKept | src/main/java/cz/brmlab/yodaqa/pipeline/structured/StructuredPrimarySearch.java:170-177 | a name outside the concept, clue, no-clue and LAT families keeps the weight set by lines 171-177 |
| Candidates.OriginFeatureKept | src/main/java/cz/brmlab/yodaqa/pipeline/structured/StructuredPrimarySearch.java:180 | with separate namespaces, a concept-origin name is present if and only if a matching concept flags it, and it is then 1.0 |
| Candidates.ClueFeaturesKept | src/main/java/cz/brmlab/yodaqa/pipeline/structured/StructuredPrimarySearch.java:184 | with separate namespaces, noClueFeature is present if and only if no clue matches (then -1.0), and each matching clue's name is 1.0 |
| Candidates.AnswerFeaturesValues | src/main/java/cz/brmlab/yodaqa/pipeline/structured/StructuredPrimarySearch.java:170-187 | with separate namespaces: Occurences = 1.0, ResultLogScore = log(1 + 1.0), originFeat = 1.0, PropertyScore present if and only if the score is non-null and then equal to it, the GloVe score, the origin flags, and the LAT feature = 1.0 |
| Candidates.PropertyAnswerShape | src/main/java/cz/brmlab/yodaqa/pipeline/structured/StructuredPrimarySearch.java:146-205 | a property answer has the value as text, "object property" as title, relevance 1.0, the given isLast, the source, snippet and answer ids, AnswerInfo isLast 1, the value resource exactly when there is one, and the type annotation |
| Candidates.DummyAnswerShape | src/main/java/cz/brmlab/yodaqa/pipeline/structured/StructuredPrimarySearch.java:210-225 | the placeholder has empty text and title, the given isLast, no source id, no features, no snippets, no LAT and AnswerInfo isLast 1 |
| Generation.CycleEmitsSchedule | src/main/java/cz/brmlab/yodaqa/pipeline/structured/StructuredPrimarySearch.java:105-126 | a cycle over n properties has max(1, n) steps: property k at position k, or one placeholder with isLast 1; only the final step has a nonzero isLast, and it equals max(1, n) |
| Generation.TwoFactsExample | src/main/java/cz/brmlab/yodaqa/pipeline/structured/StructuredPrimarySearch.java:112-124 | with two facts the cycle takes property 0 with isLast 0, then property 1 with isLast 2 |
| Generation.AllPropertiesPrefix | src/main/java/cz/brmlab/yodaqa/pipeline/structured/StructuredPrimarySearch.java:95-99 | the properties of the first c concepts are a prefix of the collected list |
| Generation.AllPropertiesAt | src/main/java/cz/brmlab/yodaqa/pipeline/structured/StructuredPrimarySearch.java:97-99 | property j of concept c sits right after all properties of the earlier concepts: concept order, then list order |
| Generation.EmittedAnswer | src/main/java/cz/brmlab/yodaqa/pipeline/structured/StructuredPrimarySearch.java:112-127 | answer k carries property k's value and a source id, or is the placeholder with isLast 1; its ResultInfo isLast is nonzero if and only if it is the final one, and then equals max(1, n); AnswerInfo isLast is 1 |
| Generation.Wrap32 | src/main/java/cz/brmlab/yodaqa/pipeline/structured/StructuredPrimarySearch.java:319 | Java int arithmetic: the result is the int congruent to x modulo 2^32, and x itself when x fits |
| Generation.CasInstancesRequired | src/main/java/cz/brmlab/yodaqa/pipeline/structured/StructuredPrimarySearch.java:318-320 | the pool size is 2 * maxJobs when that fits an int, and is congruent to it modulo 2^32 otherwise |
| Generation.StructuredPrimarySearch.constructor | src/main/java/cz/brmlab/yodaqa/pipeline/structured/StructuredPrimarySearch.java:73-79 | records the configuration and the collaborators; no properties and counter 0 |
| Generation.StructuredPrimarySearch.Process | src/main/java/cz/brmlab/yodaqa/pipeline/structured/StructuredPrimarySearch.java:91-102 | collects all concepts' property lists, concatenated in concept order, before any output; then resets the iterator and the counter to 0 |
| Generation.StructuredPrimarySearch.HasNext | src/main/java/cz/brmlab/yodaqa/pipeline/structured/StructuredPrimarySearch.java:105-108 | true if and only if fewer than max(1, n) answers have been produced, so it is true before the first next even when there are no properties |
| Generation.StructuredPrimarySearch.Next | src/main/java/cz/brmlab/yodaqa/pipeline/structured/StructuredPrimarySearch.java:110-133 | advances the iterator if it can, increments the counter, and returns the answer of the step the schedule gives for this call |
| Generation.StructuredPrimarySearch.PropertyToAnswer | src/main/java/cz/brmlab/yodaqa/pipeline/structured/StructuredPrimarySearch.java:146-205 | the answer built in place equals the specified property answer |
| Generation.StructuredPrimarySearch.AddConceptFeatures | src/main/java/cz/brmlab/yodaqa/pipeline/structured/StructuredPrimarySearch.java:227-241 | the loop leaves the vector the concept-origin specification gives |
| Generation.StructuredPrimarySearch.MatchCluesInName | src/main/java/cz/brmlab/yodaqa/pipeline/structured/StructuredPrimarySearch.java:284-294 | the loop with its clueMatched flag leaves the vector the clue-matching specification gives |
| Generation.StructuredPrimarySearch.ClueAnswerFeatures | src/main/java/cz/brmlab/yodaqa/pipeline/structured/StructuredPrimarySearch.java:300-314 | the clue's type, subject and concept-flag features are set as the specification gives |
| Generation.StructuredPrimarySearch.AddTypeLat | src/main/java/cz/brmlab/yodaqa/pipeline/structured/StructuredPrimarySearch.java:249-270 | the subclass hook sets its LAT feature to 1.0 and produces the type annotation of the shown addTypeLAT |
| Generation.RunCycle | src/main/java/cz/brmlab/yodaqa/pipeline/structured/StructuredPrimarySearch.java:91-133 | a flow controller that calls process and then next while hasNext receives exactly max(1, n) answers, answer k being that of step k of the schedule; only the final answer has a nonzero isLast, equal to the number of answers; hasNext is false afterwards |
| Generation.SearchQuestion | src/main/java/cz/brmlab/yodaqa/pipeline/structured/StructuredPrimarySearch.java:73-133 | a new multiplier over the given collaborators, run for one question, yields the schedule's answers over the properties its getConceptProperties returns for the question's concepts, in concept order |

## Left out

- The UIMA framework is out: `getEmptyJCas`, the Question and Answer views, `copyQuestion`/`CasCopier`, `addToIndexes` and the FSArray conversions. A candidate is a plain `Candidate` value.
- Exceptions are out. This covers a failure of the context copy or of a collaborator, with `jcas.release()` and the rethrow. The iterator and counter already advance before the `try`, and that is not modelled.
- `QuestionDashboard`, `AnswerIDGenerator` and `SnippetIDGenerator` are process-wide id sources. Their ids come in as the `Ids` argument of `Next`.
- The `AnswerSourceStructured` and `AnsweringProperty` records stored in the dashboard are out; only the ids they produce are kept.
- `getConceptProperties`, `makeAnswerSource` and the three-argument `addTypeLAT` are abstract subclass hooks. The first is a collaborator function.
- `makeAnswerSource` is left out apart from the source id.
- AddTypeLat: the three-argument hook is modelled as setting one LAT feature to 1.0 and then calling the shown `addTypeLAT` with an LAT of the subclass's class. That is the shape the comment at line 249 describes; the subclasses are not part of this model.
- `PropertyGloVeScoring.relatedness`, the clue regex match (`PassByClue.getClueRegex` with `String.matches`) and `Math.log` are collaborator functions in `Env`. Floating point is modelled as `real`.
- The training dump is left out: the system property lookup, the answer-pattern regex, the `Writer` file I/O, `mkdirs` and the `synchronized` locking. Only the clue count is modelled. The `"<Q> ..."` header line is written on every call, not once.
- Logging and the `MultiThreadASB` concurrency are out.
- Features.Lower: `toLowerCase` is modelled on ASCII letters only; Unicode and locale case rules are out.
- AnswerType.TypeLatShape: `length()` counts UTF-16 code units in Java and Unicode scalar values here, so the span differs for characters outside the Basic Multilingual Plane.
- Generation.StructuredPrimarySearch.Next: the counter `i` is an unbounded `nat`. Java's `int` would wrap after 2^31 - 1 calls, which is not modelled.
- The LAT's base annotation is always null and is not represented. The document language `"en"` is kept as a field.
- Candidates.AnswerFeaturesValues: the weights are stated under the assumption that the feature families use disjoint names (`SeparateNamespaces`). The code does not check this, and a clash would make the later write win. `AnswerFeaturesKeys` and `StagesMark` hold without the assumption.
