/** The one-to-many candidate generator (process / hasNext / next), the
    imperative feature helpers it runs for each candidate, and the CAS pool
    size it asks for. */
module Generation {
  import opened Types
  import opened Features
  import opened ConceptOrigin
  import opened ClueMatching
  import opened AnswerType
  import opened Candidates

  /** What one call of next does: build the answer of property `index`
      with the given ResultInfo isLast, or build the placeholder. */
  datatype Step = Take(index: nat, isLast: int) | Dummy(isLast: int)

  function IsLastOf(s: Step): int {
    match s
    case Take(_, isLast) => isLast
    case Dummy(isLast) => isLast
  }

  function Max1(n: nat): nat {
    if n == 0 then 1 else n
  }

  /** The step of next call number k+1 after process collected n properties:
      the iterator still has property k, or it is exhausted and a
      placeholder is built with isLast = i = k + 1. */
  function StepAt(n: nat, k: nat): Step {
    if k < n then Take(k, if k + 1 == n then k + 1 else 0) else Dummy(k + 1)
  }

  /** The steps of one generation cycle over n properties. */
  function Schedule(n: nat): seq<Step> {
    seq(Max1(n), k requires 0 <= k < Max1(n) => StepAt(n, k))
  }

  /** A cycle over n properties has max(1, n) steps: the properties in
      order when there are some, one placeholder otherwise; only the final
      step has a nonzero ResultInfo isLast, and it is max(1, n). */
  lemma CycleEmitsSchedule(n: nat)
    ensures |Schedule(n)| == Max1(n)
    ensures n == 0 ==> Schedule(n) == [Dummy(1)]
    ensures forall k :: 0 <= k < n ==> Schedule(n)[k].Take? && Schedule(n)[k].index == k
    ensures forall k :: 0 <= k < Max1(n) ==> (IsLastOf(Schedule(n)[k]) != 0 <==> k == Max1(n) - 1)
    ensures IsLastOf(Schedule(n)[Max1(n) - 1]) == Max1(n)
  {
  }

  /** Two concepts with one fact each: two answers, isLast 0 then 2. */
  lemma TwoFactsExample()
    ensures Schedule(2) == [Take(0, 0), Take(1, 2)]
  {
    CycleEmitsSchedule(2);
  }

  /** process: the property lists of all concepts, concatenated in concept order. */
  function AllProperties(q: Question, cs: seq<Concept>,
                         get: (Question, Concept) -> seq<PropertyValue>): seq<PropertyValue>
    decreases |cs|
  {
    if cs == [] then []
    else AllProperties(q, cs[..|cs| - 1], get) + get(q, cs[|cs| - 1])
  }

  lemma {:induction false} AllPropertiesPrefix(q: Question, cs: seq<Concept>,
                                               get: (Question, Concept) -> seq<PropertyValue>, c: nat)
    requires c <= |cs|
    ensures |AllProperties(q, cs[..c], get)| <= |AllProperties(q, cs, get)|
    ensures AllProperties(q, cs, get)[..|AllProperties(q, cs[..c], get)|] == AllProperties(q, cs[..c], get)
    decreases |cs|
  {
    if c < |cs| {
      var pre := cs[..|cs| - 1];
      assert pre[..c] == cs[..c];
      AllPropertiesPrefix(q, pre, get, c);
    } else {
      assert cs[..c] == cs;
    }
  }

  /** Property j of concept c sits right after the properties of the
      concepts before c: concept order first, then list order. */
  lemma AllPropertiesAt(q: Question, cs: seq<Concept>, get: (Question, Concept) -> seq<PropertyValue>,
                        c: nat, j: nat)
    requires c < |cs| && j < |get(q, cs[c])|
    ensures |AllProperties(q, cs[..c], get)| + j < |AllProperties(q, cs, get)|
    ensures AllProperties(q, cs, get)[|AllProperties(q, cs[..c], get)| + j] == get(q, cs[c])[j]
  {
    assert cs[..c + 1][..c] == cs[..c];
    AllPropertiesPrefix(q, cs, get, c + 1);
  }

  /** The answer built for one step. */
  function Emit(cfg: SearchConfig, env: Env, step: Step, props: seq<PropertyValue>,
                q: Question, ids: Ids): Candidate
    requires step.Take? ==> step.index < |props|
  {
    match step
    case Take(k, isLast) => PropertyAnswer(cfg, env, props[k], isLast, q, ids)
    case Dummy(isLast) => DummyAnswer(cfg.origin, isLast)
  }

  /** Answer k of a cycle: property k with ResultInfo isLast n on the last
      and 0 before it, or the placeholder with isLast 1 when there are no
      properties; every answer has AnswerInfo isLast 1. */
  lemma EmittedAnswer(cfg: SearchConfig, env: Env, props: seq<PropertyValue>, q: Question,
                      ids: Ids, k: nat)
    requires k < Max1(|props|)
    ensures var c := Emit(cfg, env, StepAt(|props|, k), props, q, ids);
      && (|props| > 0 ==> c.text == props[k].value && c.resultInfo.sourceID == Some(ids.sourceID))
      && (|props| == 0 ==> c == DummyAnswer(cfg.origin, 1) && c.text == "")
      && (c.resultInfo.isLast != 0 <==> k == Max1(|props|) - 1)
      && (k == Max1(|props|) - 1 ==> c.resultInfo.isLast == Max1(|props|))
      && c.answerInfo.isLast == 1
  {
    if |props| > 0 {
      PropertyAnswerShape(cfg, env, props[k], IsLastOf(StepAt(|props|, k)), q, ids);
    }
  }

  newtype int32 = x: int | -0x8000_0000 <= x < 0x8000_0000

  /** Java int arithmetic: the value congruent to x modulo 2^32 in int range. */
  function Wrap32(x: int): (r: int32)
    ensures (r as int - x) % 0x1_0000_0000 == 0
    ensures -0x8000_0000 <= x < 0x8000_0000 ==> r as int == x
  {
    ((x + 0x8000_0000) % 0x1_0000_0000 - 0x8000_0000) as int32
  }

  /** getCasInstancesRequired: two CASes per pipeline job, in int arithmetic. */
  function CasInstancesRequired(maxJobs: int32): (r: int32)
    ensures (r as int - 2 * maxJobs as int) % 0x1_0000_0000 == 0
    ensures -0x4000_0000 <= maxJobs < 0x4000_0000 ==> r as int == 2 * maxJobs as int
  {
    Wrap32(maxJobs as int * 2)
  }

  /** The multiplier. `properties` and `relIter` (the iterator's position
      in them) stand for the Java iterator; `started` says process has run. */
  class StructuredPrimarySearch {
    const cfg: SearchConfig
    const env: Env
    var questionView: Question
    var properties: seq<PropertyValue>
    var relIter: nat
    var i: nat
    var started: bool

    /** The iterator advances with the counter until it is exhausted. */
    ghost predicate Valid()
      reads this
    {
      relIter == if i < |properties| then i else |properties|
    }

    constructor (cfg: SearchConfig, env: Env)
      ensures this.cfg == cfg && this.env == env
      ensures Valid() && !started && properties == [] && i == 0
    {
      this.cfg := cfg;
      this.env := env;
      questionView := Question("", [], []);
      properties := [];
      relIter := 0;
      i := 0;
      started := false;
    }

    /** Collect the properties of every concept, then reset the iterator
      and the counter. */
    method Process(jcas: Question)
      modifies this
      ensures Valid() && started
      ensures questionView == jcas
      ensures properties == AllProperties(jcas, jcas.concepts, env.getConceptProperties)
      ensures relIter == 0 && i == 0
    {
      questionView := jcas;
      var props: seq<PropertyValue> := [];
      for k := 0 to |jcas.concepts|
        invariant props == AllProperties(jcas, jcas.concepts[..k], env.getConceptProperties)
      {
        assert jcas.concepts[..k + 1][..k] == jcas.concepts[..k];
        props := props + env.getConceptProperties(jcas, jcas.concepts[k]);
      }
      assert jcas.concepts[..|jcas.concepts|] == jcas.concepts;
      properties := props;
      relIter := 0;
      i := 0;
      started := true;
    }

    /** More answers remain while properties do, and always before the first. */
    function HasNext(): (r: bool)
      reads this
      requires Valid() && started
      ensures r <==> i < |Schedule(|properties|)|
    {
      relIter < |properties| || i == 0
    }

    /** Take the next property (none once exhausted), count the call, and
      build its answer or the placeholder. The ids are those the dashboard
      and the id generators hand out for this answer. */
    method Next(ids: Ids) returns (c: Candidate)
      requires Valid() && started
      modifies this
      ensures Valid() && started
      ensures questionView == old(questionView) && properties == old(properties)
      ensures i == old(i) + 1
      ensures c == Emit(cfg, env, StepAt(|properties|, old(i)), properties, questionView, ids)
    {
      var property: Option<PropertyValue> := None;
      if relIter < |properties| {
        property := Some(properties[relIter]);
        relIter := relIter + 1;
      }
      i := i + 1;
      if property.Some? {
        c := PropertyToAnswer(property.value, if !(relIter < |properties|) then i else 0, questionView, ids);
      } else {
        c := DummyAnswer(cfg.origin, i);
      }
    }

    /** Build the answer of one property; the feature vector is filled in
      place, family by family. */
    method PropertyToAnswer(property: PropertyValue, isLast: int, questionView: Question, ids: Ids)
      returns (c: Candidate)
      ensures c == PropertyAnswer(cfg, env, property, isLast, questionView, ids)
    {
      var text := property.value;
      var title := property.obj + " " + property.property;
      var ri := ResultInfo(title, Some(cfg.sourceName), Relevance, isLast, Some(ids.sourceID), cfg.origin);

      var fv := new AnswerFV();
      fv.SetFeature(Occurences, 1.0);
      fv.SetFeature(ResultLogScore, env.log(1.0 + ri.relevance));
      fv.SetFeature(property.originFeat, 1.0);
      if property.score.Some? {
        fv.SetFeature(PropertyScore, property.score.value);
      }
      var gloVeScore := env.relatedness(questionView.text, property.property);
      fv.SetFeature(PropertyGloVeScore, gloVeScore);
      assert fv.values == BaseFeatures(env, property, questionView);

      AddConceptFeatures(questionView, fv, property.obj);
      MatchCluesInName(questionView, property.property, fv);
      var pos, lat := AddTypeLat(text, fv, property.property);

      var resources := if property.valRes.Some? then [property.valRes.value] else [];
      var ai := AnswerInfo(Some(fv.values), 1, Some(ids.answerID), [ids.snippetID], resources);
      c := Candidate(text, "en", ri, ai, Some(pos), Some(lat));
    }

    /** Mark the origin flags of every concept whose label matches `text`. */
    method AddConceptFeatures(questionView: Question, fv: AnswerFV, text: string)
      modifies fv
      ensures fv.values == ConceptFeatures(old(fv.values), questionView.concepts, text)
    {
      var concepts := questionView.concepts;
      for k := 0 to |concepts|
        invariant fv.values == ConceptFeatures(old(fv.values), concepts[..k], text)
      {
        assert concepts[..k + 1][..k] == concepts[..k];
        var concept := concepts[k];
        if Lower(concept.cookedLabel) != Lower(text) {
          continue;
        }
        if concept.bySubject {
          fv.SetFeature(OriginConceptBySubject, 1.0);
        }
        if concept.byLAT {
          fv.SetFeature(OriginConceptByLAT, 1.0);
        }
        if concept.byNE {
          fv.SetFeature(OriginConceptByNE, 1.0);
        }
      }
      assert concepts[..|concepts|] == concepts;
    }

    /** Set the features of every clue matching `name`, or the no-clue bias. */
    method MatchCluesInName(questionView: Question, name: string, fv: AnswerFV)
      modifies fv
      ensures fv.values == MatchClues(old(fv.values), name, questionView.clues, cfg.clueFeaturePrefix,
                                      cfg.noClueFeature, env.clueMatches)
    {
      var clues := questionView.clues;
      var clueMatched := false;
      for k := 0 to |clues|
        invariant (fv.values, clueMatched)
               == ClueScan(old(fv.values), name, clues[..k], cfg.clueFeaturePrefix, env.clueMatches)
      {
        assert clues[..k + 1][..k] == clues[..k];
        var clue := clues[k];
        if !env.clueMatches(name, clue) {
          continue;
        }
        clueMatched := true;
        ClueAnswerFeatures(fv, clue);
      }
      assert clues[..|clues|] == clues;
      if !clueMatched {
        fv.SetFeature(cfg.noClueFeature, -1.0);
      }
    }

    /** The features of one matching clue. */
    method ClueAnswerFeatures(afv: AnswerFV, clue: Clue)
      modifies afv
      ensures afv.values == ClueFeatures(old(afv.values), clue, cfg.clueFeaturePrefix)
    {
      var prefix := cfg.clueFeaturePrefix;
      afv.SetFeature(prefix + clue.shortName, 1.0);
      match clue.kind {
        case Subject =>
          afv.SetFeature(prefix + "ClueSubject", 1.0);
        case ConceptRef(concepts) =>
          ghost var start := afv.values;
          for k := 0 to |concepts|
            invariant afv.values == ConceptClueFeatures(start, concepts[..k], prefix)
          {
            assert concepts[..k + 1][..k] == concepts[..k];
            var concept := concepts[k];
            if concept.bySubject {
              afv.SetFeature(prefix + "ClueSubject", 1.0);
            }
            if concept.byLAT {
              afv.SetFeature(prefix + "ClueLAT", 1.0);
            }
            if concept.byNE {
              afv.SetFeature(prefix + "ClueNE", 1.0);
            }
          }
          assert concepts[..|concepts|] == concepts;
        case Plain =>
      }
    }

    /** The subclass's addTypeLAT(jcas, fv, type): its LAT feature, then
      the LAT of its class over the answer text `documentText`. */
    method AddTypeLat(documentText: string, fv: AnswerFV, typeName: string) returns (pos: Pos, lat: Lat)
      modifies fv
      ensures fv.values == old(fv.values)[cfg.latHook.latFeature := 1.0]
      ensures (pos, lat) == TypeLat(cfg.latHook.latClass, documentText, typeName)
    {
      fv.SetFeature(cfg.latHook.latFeature, 1.0);
      var t := TypeLat(cfg.latHook.latClass, documentText, typeName);
      pos, lat := t.0, t.1;
    }
  }

  /** A flow controller driving one cycle: process, then next while hasNext.
      It receives max(1, n) answers, answer k being the one of step k of the
      schedule; only the final answer has a nonzero ResultInfo isLast, which
      is the number of answers; hasNext is false afterwards. `idsFor` stands
      for the id sources. */
  method RunCycle(s: StructuredPrimarySearch, q: Question, idsFor: nat -> Ids)
    returns (out: seq<Candidate>)
    modifies s
    ensures s.properties == AllProperties(q, q.concepts, s.env.getConceptProperties)
    ensures |out| == Max1(|s.properties|)
    ensures forall k :: 0 <= k < |out| ==>
              out[k] == Emit(s.cfg, s.env, Schedule(|s.properties|)[k], s.properties, q, idsFor(k))
    ensures forall k :: 0 <= k < |out| ==> (out[k].resultInfo.isLast != 0 <==> k == |out| - 1)
    ensures out[|out| - 1].resultInfo.isLast == |out|
    ensures s.Valid() && s.started && !s.HasNext()
  {
    s.Process(q);
    out := [];
    while s.HasNext()
      invariant s.Valid() && s.started && s.questionView == q
      invariant s.properties == AllProperties(q, q.concepts, s.env.getConceptProperties)
      invariant s.i == |out| <= Max1(|s.properties|)
      invariant forall k :: 0 <= k < |out| ==>
                  out[k] == Emit(s.cfg, s.env, StepAt(|s.properties|, k), s.properties, q, idsFor(k))
      decreases Max1(|s.properties|) - s.i
    {
      var c := s.Next(idsFor(s.i));
      out := out + [c];
    }
    forall k | 0 <= k < |out|
      ensures out[k].resultInfo.isLast != 0 <==> k == |out| - 1
      ensures k == |out| - 1 ==> out[k].resultInfo.isLast == |out|
    {
      EmittedAnswer(s.cfg, s.env, s.properties, q, idsFor(k), k);
    }
  }

  /** A fresh multiplier over the given configuration and collaborators,
      driven through one cycle: the answers are those of the schedule over
      the properties the collaborators return for the question's concepts. */
  method SearchQuestion(cfg: SearchConfig, env: Env, q: Question, idsFor: nat -> Ids)
    returns (out: seq<Candidate>)
    ensures var props := AllProperties(q, q.concepts, env.getConceptProperties);
      && |out| == Max1(|props|)
      && forall k :: 0 <= k < |out| ==>
           out[k] == Emit(cfg, env, Schedule(|props|)[k], props, q, idsFor(k))
  {
    var s := new StructuredPrimarySearch(cfg, env);
    out := RunCycle(s, q, idsFor);
  }
}
