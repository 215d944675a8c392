/**
  Classification behind the fail-open result cache.  Requests overlap: each await of
  classify ends one atomic step, and in between other requests, expiry, eviction and
  corruption may change the stored entries.  Preprocessing, the forward pass and the
  softmax together are one deterministic function of the model and the image.
 */
module InferenceCache {
  import opened Common
  import opened Selection
  import Strings

  type Bytes = seq<bv8>

  datatype LoadedModel = LoadedModel(name: string, version: string, backend: string,
                                     classNames: seq<string>, wnids: seq<string>, weights: Bytes)

  datatype Options = Options(topK: nat, includeProbabilities: bool)

  /** A validated upload, the model get_for_backend resolved for it, and its options. */
  datatype Request = Request(image: Bytes, model: LoadedModel, options: Options, useCache: bool)

  datatype Prediction = Prediction(named: string, classId: nat, wnid: Option<string>, probability: Option<real>)

  /** Foreign code: the two digests, inference, and NumPy's two orderings. */
  datatype Engine = Engine(
    imageDigest: Bytes -> string,
    optionDigest: string -> string,
    probabilities: (LoadedModel, Bytes) -> seq<real>,
    partitioned: (seq<real>, nat) -> seq<nat>,
    sorted: seq<real> -> seq<nat>)

  /** What is relied on: hexadecimal digests have no colons, and the orderings keep their contracts. */
  ghost predicate Lawful(e: Engine) {
    && (forall b :: ':' !in e.imageDigest(b))
    && (forall s :: ':' !in e.optionDigest(s))
    && (forall scores, k: nat | k <= |scores| :: Partitions(scores, e.partitioned(scores, k), k))
    && (forall values :: SortsDescending(values, e.sorted(values)))
  }

  // ------------------------------------------------------------ decoding logits

  /** A prediction carries its own class's name, and its WordNet id exactly if the model has one for it. */
  predicate Labelled(m: LoadedModel, p: Prediction) {
    && p.classId < |m.classNames| && p.named == m.classNames[p.classId]
    && (p.wnid.Some? <==> p.classId < |m.wnids|)
    && (p.wnid.Some? ==> p.wnid.value == m.wnids[p.classId])
  }

  /** One prediction of the loop in _decode_classification. */
  function Predict(m: LoadedModel, score: real, id: nat, withProbability: bool): (p: Prediction)
    requires id < |m.classNames|
    ensures p.classId == id && Labelled(m, p) && p.probability == if withProbability then Some(score) else None
  {
    Prediction(m.classNames[id], id, if id < |m.wnids| then Some(m.wnids[id]) else None,
               if withProbability then Some(score) else None)
  }

  /** The predictions in order; None if some class has no name. */
  function Decoded(m: LoadedModel, scores: seq<real>, indices: seq<nat>, withProbability: bool)
    : (r: Option<seq<Prediction>>)
    requires |scores| == |indices|
    ensures r.Some? <==> InRange(indices, |m.classNames|)
    ensures r.Some? ==> |r.value| == |indices|
    ensures r.Some? ==>
      forall i | 0 <= i < |indices| :: r.value[i] == Predict(m, scores[i], indices[i], withProbability)
  {
    if InRange(indices, |m.classNames|)
    then Some(seq(|indices|, i requires 0 <= i < |indices| => Predict(m, scores[i], indices[i], withProbability)))
    else None
  }

  /** The loop of _decode_classification; None is the IndexError of a class without a name. */
  method DecodeClassification(m: LoadedModel, scores: seq<real>, indices: seq<nat>, withProbability: bool)
    returns (r: Option<seq<Prediction>>)
    requires |scores| == |indices|
    ensures r == Decoded(m, scores, indices, withProbability)
    ensures r.Some? <==> InRange(indices, |m.classNames|)
    ensures r.Some? ==> |r.value| == |indices| && forall i | 0 <= i < |indices| ::
      && r.value[i].classId == indices[i] && Labelled(m, r.value[i])
      && r.value[i].probability == if withProbability then Some(scores[i]) else None
  {
    hide Predict, Decoded, Labelled;
    var predictions: seq<Prediction> := [];
    for i := 0 to |scores|
      invariant |predictions| == i
      invariant forall j | 0 <= j < i :: indices[j] < |m.classNames|
      invariant forall j | 0 <= j < i :: predictions[j] == Predict(m, scores[j], indices[j], withProbability)
    {
      if indices[i] >= |m.classNames| {
        return None;
      }
      predictions := predictions + [Predict(m, scores[i], indices[i], withProbability)];
    }
    assert predictions == Decoded(m, scores, indices, withProbability).value;
    return Some(predictions);
  }

  /** Inference without a cache: the reference every answer is compared with. */
  ghost function Fresh(e: Engine, r: Request): Option<seq<Prediction>>
    requires Lawful(e)
  {
    var p := e.probabilities(r.model, r.image);
    var k := Min(r.options.topK, |p|);
    var perm := e.partitioned(p, k);
    assert InRange(perm[..k], |p|);
    var (scores, indices) := TopK(p, r.options.topK, perm, e.sorted(Take(p, perm[..k])));
    Decoded(r.model, scores, indices, r.options.includeProbabilities)
  }

  // ------------------------------------------------------------------- the key

  /** json.dumps of the options, keys sorted, no spaces. */
  function OptionRepr(o: Options): string {
    "{\"include_probabilities\":" + (if o.includeProbabilities then "true" else "false")
    + ",\"top_k\":" + Strings.Padded(o.topK, 1) + "}"
  }

  /** CacheService.build_key */
  function BuildKey(e: Engine, r: Request): string {
    "infer:v1:" + (r.model.name + ":" + r.model.version) + ":" + r.model.backend
    + ":" + e.imageDigest(r.image) + ":" + e.optionDigest(OptionRepr(r.options))
  }

  lemma OptionReprInjective(a: Options, b: Options)
    requires OptionRepr(a) == OptionRepr(b)
    ensures a == b
  {
    var s, t := OptionRepr(a), OptionRepr(b);
    assert a.includeProbabilities <==> s[25] == 't';
    assert b.includeProbabilities <==> t[25] == 't';
    var n := if a.includeProbabilities then 38 else 39;
    assert s[n..|s| - 1] == Strings.Padded(a.topK, 1);
    assert t[n..|t| - 1] == Strings.Padded(b.topK, 1);
    Strings.PaddedInjective(a.topK, b.topK, 1);
  }

  lemma SamePrefix(p: string, a: string, b: string)
    requires p + a == p + b
    ensures a == b
  {
    assert (p + a)[|p|..] == a && (p + b)[|p|..] == b;
  }

  /**
    Two requests share a key exactly if backend and both digests agree and so does the
    text name:version - which a colon in a name can make agree for different models.
   */
  lemma KeysAgreeExactly(e: Engine, a: Request, b: Request)
    requires Lawful(e) && ':' !in a.model.backend && ':' !in b.model.backend
    ensures BuildKey(e, a) == BuildKey(e, b) <==>
            && a.model.name + ":" + a.model.version == b.model.name + ":" + b.model.version
            && a.model.backend == b.model.backend
            && e.imageDigest(a.image) == e.imageDigest(b.image)
            && e.optionDigest(OptionRepr(a.options)) == e.optionDigest(OptionRepr(b.options))
  {
    if BuildKey(e, a) == BuildKey(e, b) {
      var ma := "infer:v1:" + (a.model.name + ":" + a.model.version);
      var mb := "infer:v1:" + (b.model.name + ":" + b.model.version);
      var ia, ib := e.imageDigest(a.image), e.imageDigest(b.image);
      Strings.SplitAtLastColon(ma + ":" + a.model.backend + ":" + ia, e.optionDigest(OptionRepr(a.options)),
                               mb + ":" + b.model.backend + ":" + ib, e.optionDigest(OptionRepr(b.options)));
      Strings.SplitAtLastColon(ma + ":" + a.model.backend, ia, mb + ":" + b.model.backend, ib);
      Strings.SplitAtLastColon(ma, a.model.backend, mb, b.model.backend);
      SamePrefix("infer:v1:", a.model.name + ":" + a.model.version, b.model.name + ":" + b.model.version);
    }
  }

  /** The requests of a run: what the cache's correctness rests on. */
  ghost predicate World(e: Engine, requests: set<Request>) {
    && Lawful(e)
    && (forall r | r in requests :: ':' !in r.model.name && ':' !in r.model.backend)
    && (forall a, b | a in requests && b in requests :: Agree(e, a, b))
  }

  /** No digest collision, and one set of weights per name, version and backend. */
  predicate Agree(e: Engine, a: Request, b: Request) {
    && (e.imageDigest(a.image) == e.imageDigest(b.image) ==> a.image == b.image)
    && (e.optionDigest(OptionRepr(a.options)) == e.optionDigest(OptionRepr(b.options)) ==>
          OptionRepr(a.options) == OptionRepr(b.options))
    && ((a.model.name, a.model.version, a.model.backend) == (b.model.name, b.model.version, b.model.backend) ==>
          a.model == b.model)
  }

  /** Equal keys mean equal image, model and options, hence the same fresh answer. */
  lemma KeyDeterminesAnswer(e: Engine, requests: set<Request>, a: Request, b: Request)
    requires World(e, requests) && a in requests && b in requests
    ensures BuildKey(e, a) == BuildKey(e, b) <==> (a.image, a.model, a.options) == (b.image, b.model, b.options)
    ensures BuildKey(e, a) == BuildKey(e, b) ==> Fresh(e, a) == Fresh(e, b)
  {
    hide Lawful, OptionRepr;
    KeysAgreeExactly(e, a, b);
    assert Agree(e, a, b);
    if BuildKey(e, a) == BuildKey(e, b) {
      Strings.SplitAtFirstColon(a.model.name, a.model.version, b.model.name, b.model.version);
      OptionReprInjective(a.options, b.options);
    }
  }

  /** With a colon in a name two different models do share their entries. */
  lemma ColonsCollide(e: Engine, r: Request)
    ensures var a := r.(model := r.model.(name := "a:b", version := "c"));
      var b := r.(model := r.model.(name := "a", version := "b:c"));
      BuildKey(e, a) == BuildKey(e, b) && a.model != b.model
  {
    assert "a:b" + ":" + "c" == "a" + ":" + "b:c";
  }

  /** What every answer of the service amounts to: the k best classes, best first. */
  lemma FreshIsLeading(e: Engine, r: Request)
    requires Lawful(e)
    ensures Fresh(e, r).Some? ==>
      var p := e.probabilities(r.model, r.image);
      var ids := ClassIds(Fresh(e, r).value);
      |ids| == Min(r.options.topK, |p|) && Leading(p, Upto(|p|), ids)
  {
    var p := e.probabilities(r.model, r.image);
    var k := Min(r.options.topK, |p|);
    var perm := e.partitioned(p, k);
    var order := e.sorted(Take(p, perm[..k]));
    hide Leading, Upto, Decoded, Predict;
    TopKIsLeading(p, r.options.topK, perm, order);
    var indices := TopK(p, r.options.topK, perm, order).1;
    if Fresh(e, r).Some? {
      assert ClassIds(Fresh(e, r).value) == indices by {
        PredictedIds(r.model, TopK(p, r.options.topK, perm, order).0, indices, r.options.includeProbabilities);
      }
    }
  }

  /** The answer to a request: each class labelled by the model, with its own probability exactly if asked for. */
  ghost predicate SaysOf(e: Engine, r: Request, p: Prediction) {
    var probabilities := e.probabilities(r.model, r.image);
    && Labelled(r.model, p) && p.classId < |probabilities|
    && p.probability == if r.options.includeProbabilities then Some(probabilities[p.classId]) else None
  }

  lemma FreshSays(e: Engine, r: Request, i: nat)
    requires Lawful(e) && Fresh(e, r).Some? && i < |Fresh(e, r).value|
    ensures SaysOf(e, r, Fresh(e, r).value[i])
  {
    var p := e.probabilities(r.model, r.image);
    var k := Min(r.options.topK, |p|);
    var perm := e.partitioned(p, k);
    var order := e.sorted(Take(p, perm[..k]));
    hide Leading, Upto, Predict, Labelled;
    TopKIsLeading(p, r.options.topK, perm, order);
    var (scores, indices) := TopK(p, r.options.topK, perm, order);
    assert scores[i] == p[indices[i]];
    assert Fresh(e, r).value[i] == Predict(r.model, scores[i], indices[i], r.options.includeProbabilities);
  }

  function ClassIds(ps: seq<Prediction>): (ids: seq<nat>)
    ensures |ids| == |ps| && forall i | 0 <= i < |ps| :: ids[i] == ps[i].classId
  {
    seq(|ps|, i requires 0 <= i < |ps| => ps[i].classId)
  }

  lemma PredictedIds(m: LoadedModel, scores: seq<real>, indices: seq<nat>, withProbability: bool)
    requires |scores| == |indices| && Decoded(m, scores, indices, withProbability).Some?
    ensures ClassIds(Decoded(m, scores, indices, withProbability).value) == indices
  {
  }

  // ------------------------------------------------------------ the cache itself

  /** What reading a value raises that no handler in the service catches. */
  datatype ReadError =
    | UnicodeDecodeError  // the client decodes replies as UTF-8
    | RecursionError      // JSON nested beyond the parser's limit

  /**
    A stored value: predictions, text that json.loads rejects, null, any other JSON, which
    is no payload and makes the reader of `predictions` raise, or what cannot be read at all.
   */
  datatype Entry =
    | Payload(predictions: seq<Prediction>)
    | Undecodable
    | NullValue
    | Misshapen
    | Unreadable(error: ReadError)

  datatype Cache = Cache(store: map<string, Entry>, hits: nat, misses: nat, errors: nat)

  datatype Looked = Hit(predictions: seq<Prediction>) | Missed | Spoiled | Malformed | Raised(error: ReadError)

  /**
    CacheService.get up to the removal of an undecodable entry; `fault` is a RedisError.
    A stored null counts as a hit although its caller cannot tell it from a miss; a value
    that cannot be read counts as nothing.
   */
  function LookUp(c: Cache, key: string, fault: bool): (Cache, Looked) {
    if fault then (c.(errors := c.errors + 1), Missed)
    else if key !in c.store then (c.(misses := c.misses + 1), Missed)
    else match c.store[key]
      case Undecodable => (c.(errors := c.errors + 1), Spoiled)
      case NullValue => (c.(hits := c.hits + 1), Missed)
      case Misshapen => (c.(hits := c.hits + 1), Malformed)
      case Unreadable(error) => (c, Raised(error))
      case Payload(p) => (c.(hits := c.hits + 1), Hit(p))
  }

  function Remove(c: Cache, key: string, fault: bool): Cache {
    if fault then c.(errors := c.errors + 1) else c.(store := c.store - {key})
  }

  function Put(c: Cache, key: string, p: seq<Prediction>, fault: bool): Cache {
    if fault then c.(errors := c.errors + 1) else c.(store := c.store[key := Payload(p)])
  }

  class CacheService {
    const enabled: bool
    /** What Redis holds. */
    var store: map<string, Entry>
    var hits: nat
    var misses: nat
    var errors: nat

    function View(): Cache
      reads this
    {
      Cache(store, hits, misses, errors)
    }

    constructor (enabled: bool)
      ensures this.enabled == enabled && View() == Cache(map[], 0, 0, 0)
    {
      this.enabled := enabled;
      store, hits, misses, errors := map[], 0, 0, 0;
    }

    /** The parsed entry, or None; a parsed null is None as well. */
    method Get(key: string, fault: bool, deleteFault: bool) returns (r: Result<Option<Entry>, ReadError>)
      modifies this
      ensures !enabled ==> View() == old(View()) && r == Ok(None)
      ensures enabled ==>
        var (c, looked) := LookUp(old(View()), key, fault);
        && View() == (if looked.Spoiled? then Remove(c, key, deleteFault) else c)
        && r == (match looked
                 case Hit(p) => Ok(Some(Payload(p)))
                 case Malformed => Ok(Some(Misshapen))
                 case Raised(error) => Err(error)
                 case _ => Ok(None))
      ensures var found := if enabled && !fault && key in old(store) then Some(old(store)[key]) else None;
        && hits == old(hits)
             + (if found.Some? && !found.value.Undecodable? && !found.value.Unreadable? then 1 else 0)
        && misses == old(misses) + (if enabled && !fault && found.None? then 1 else 0)
        && errors == old(errors) + (if enabled && fault then 1 else 0)
             + (if found == Some(Undecodable) then 1 + (if deleteFault then 1 else 0) else 0)
        && store == (if found == Some(Undecodable) && !deleteFault then old(store) - {key} else old(store))
        && (r == Ok(found) <==> found.None? || found.value.Payload? || found.value.Misshapen?)
        && (r == Ok(None) <==> found.None? || found.value.Undecodable? || found.value.NullValue?)
        && (found.Some? && found.value.Unreadable? ==> r == Err(found.value.error))
    {
      if !enabled {
        return Ok(None);
      }
      if fault {
        errors := errors + 1;
        return Ok(None);
      }
      if key !in store {
        misses := misses + 1;
        return Ok(None);
      }
      match store[key] {
        case Unreadable(error) =>
          return Err(error);
        case Undecodable =>
          errors := errors + 1;
          Delete(key, deleteFault);
          return Ok(None);
        case NullValue =>
          hits := hits + 1;
          return Ok(None);
        case _ =>
          hits := hits + 1;
          return Ok(Some(store[key]));
      }
    }

    method Set(key: string, p: seq<Prediction>, fault: bool) returns (written: bool)
      modifies this
      ensures View() == if enabled then Put(old(View()), key, p, fault) else old(View())
      ensures written <==> enabled && !fault
    {
      if !enabled {
        return false;
      }
      if fault {
        errors := errors + 1;
        return false;
      }
      store := store[key := Payload(p)];
      return true;
    }

    method Delete(key: string, fault: bool)
      modifies this
      ensures View() == if enabled then Remove(old(View()), key, fault) else old(View())
    {
      if !enabled {
        return;
      }
      if fault {
        errors := errors + 1;
        return;
      }
      store := store - {key};
    }
  }

  // -------------------------------------------------------- overlapping requests

  /** Which await a request is suspended at. */
  datatype Stage = Looking | Deleting | Running | Storing(predictions: seq<Prediction>)

  datatype Flight = Flight(request: Request, stage: Stage)

  /** How a request ended. */
  datatype Outcome =
    | Served(predictions: seq<Prediction>, cached: bool)
    | InferenceFailed  // the exception that classify audits
    | Unnamed          // the IndexError of decoding a class without a name
    | Misread          // what reading a misshapen entry raises
    | Unread(error: ReadError)  // what the lookup itself raises
    | Cancelled        // CancelledError, at whatever await

  datatype Answer = Answer(id: nat, request: Request, outcome: Outcome)

  datatype AuditRecord = AuditRecord(id: nat, success: bool, cached: bool, top: Option<Prediction>)

  datatype State = State(cache: Cache, flights: map<nat, Flight>, answers: seq<Answer>, audits: seq<AuditRecord>)

  datatype Step =
    | Arrive(id: nat, request: Request)
    | GetReturns(id: nat, fault: bool)
    | DeleteReturns(id: nat, fault: bool)
    | InferReturns(id: nat, ok: bool)
    | SetReturns(id: nat, fault: bool)
    /** Expiry, eviction or a flush of Redis. */
    | Lose(key: string)
    /** A stored value becomes something that is no payload. */
    | Spoil(key: string, entry: Entry)
    /** The request is cancelled; a write it awaits may or may not be applied. */
    | Cancel(id: nat, applied: bool)

  predicate AtStage(s: State, id: nat, stage: Stage) {
    id in s.flights && s.flights[id].stage == stage
  }

  ghost predicate Can(s: State, step: Step) {
    match step
    case Arrive(id, _) => id !in s.flights
    case GetReturns(id, _) => AtStage(s, id, Looking)
    case DeleteReturns(id, _) => AtStage(s, id, Deleting)
    case InferReturns(id, _) => AtStage(s, id, Running)
    case SetReturns(id, _) => id in s.flights && s.flights[id].stage.Storing?
    case Lose(_) => true
    case Spoil(_, entry) => !entry.Payload?
    case Cancel(id, _) => id in s.flights
  }

  function Move(s: State, id: nat, stage: Stage): State
    requires id in s.flights
  {
    s.(flights := s.flights[id := s.flights[id].(stage := stage)])
  }

  /** The audit record that classify queues, if it gets that far. */
  function AuditOf(id: nat, outcome: Outcome): seq<AuditRecord> {
    match outcome
    case Served(p, cached) => [AuditRecord(id, true, cached, if p == [] then None else Some(p[0]))]
    case InferenceFailed => [AuditRecord(id, false, false, None)]
    case _ => []
  }

  function Finish(s: State, id: nat, outcome: Outcome): State
    requires id in s.flights
  {
    s.(flights := s.flights - {id},
       answers := s.answers + [Answer(id, s.flights[id].request, outcome)],
       audits := s.audits + AuditOf(id, outcome))
  }

  /** The cache after a request is cancelled at `stage`; no counter changes. */
  function Interrupted(c: Cache, key: string, stage: Stage, applied: bool): Cache {
    if applied && (stage.Deleting? || stage.Storing?) then
      c.(store := if stage.Deleting? then c.store - {key} else c.store[key := Payload(stage.predictions)])
    else c
  }

  ghost function Do(e: Engine, enabled: bool, s: State, step: Step): State
    requires Lawful(e) && Can(s, step)
  {
    match step
    case Arrive(id, r) =>
      s.(flights := s.flights[id := Flight(r, if r.useCache && enabled then Looking else Running)])
    case GetReturns(id, fault) =>
      var (c, looked) := LookUp(s.cache, BuildKey(e, s.flights[id].request), fault);
      var t := s.(cache := c);
      (match looked
       case Hit(p) => Finish(t, id, Served(p, true))
       case Malformed => Finish(t, id, Misread)
       case Raised(error) => Finish(t, id, Unread(error))
       case Missed => Move(t, id, Running)
       case Spoiled => Move(t, id, Deleting))
    case DeleteReturns(id, fault) =>
      Move(s.(cache := Remove(s.cache, BuildKey(e, s.flights[id].request), fault)), id, Running)
    case InferReturns(id, ok) =>
      var r := s.flights[id].request;
      if !ok then Finish(s, id, InferenceFailed)
      else if Fresh(e, r).None? then Finish(s, id, Unnamed)
      else if r.useCache && enabled then Move(s, id, Storing(Fresh(e, r).value))
      else Finish(s, id, Served(Fresh(e, r).value, false))
    case SetReturns(id, fault) =>
      var p := s.flights[id].stage.predictions;
      Finish(s.(cache := Put(s.cache, BuildKey(e, s.flights[id].request), p, fault)), id, Served(p, false))
    case Lose(key) => s.(cache := s.cache.(store := s.cache.store - {key}))
    case Spoil(key, entry) => s.(cache := s.cache.(store := s.cache.store[key := entry]))
    case Cancel(id, applied) =>
      Finish(s.(cache := Interrupted(s.cache, BuildKey(e, s.flights[id].request), s.flights[id].stage, applied)),
             id, Cancelled)
  }

  const INITIAL: State := State(Cache(map[], 0, 0, 0), map[], [], [])

  ghost predicate Run(e: Engine, enabled: bool, steps: seq<Step>)
    requires Lawful(e)
    decreases |steps|, 0
  {
    steps == [] ||
    (&& Run(e, enabled, steps[..|steps| - 1])
     && Can(After(e, enabled, steps[..|steps| - 1]), steps[|steps| - 1]))
  }

  ghost function After(e: Engine, enabled: bool, steps: seq<Step>): State
    requires Lawful(e) && Run(e, enabled, steps)
    decreases |steps|, 1
  {
    if steps == [] then INITIAL
    else Do(e, enabled, After(e, enabled, steps[..|steps| - 1]), steps[|steps| - 1])
  }

  /** Every request of the run is one of `requests`. */
  predicate Asks(steps: seq<Step>, requests: set<Request>) {
    forall i | 0 <= i < |steps| :: steps[i].Arrive? ==> steps[i].request in requests
  }

  ghost predicate Sound(e: Engine, requests: set<Request>, key: string, p: seq<Prediction>)
    requires Lawful(e)
  {
    exists r :: r in requests && BuildKey(e, r) == key && Fresh(e, r) == Some(p)
  }

  /** A decodable entry is the fresh answer of some request with its key. */
  ghost predicate StoreSound(e: Engine, requests: set<Request>, c: Cache)
    requires Lawful(e)
  {
    forall key | key in c.store && c.store[key].Payload? :: Sound(e, requests, key, c.store[key].predictions)
  }

  ghost predicate FlightsSound(e: Engine, requests: set<Request>, s: State)
    requires Lawful(e)
  {
    forall id | id in s.flights ::
      && s.flights[id].request in requests
      && (s.flights[id].stage.Storing? ==> Fresh(e, s.flights[id].request) == Some(s.flights[id].stage.predictions))
  }

  ghost predicate AnswersFresh(e: Engine, s: State)
    requires Lawful(e)
  {
    forall i | 0 <= i < |s.answers| :: Right(e, s.answers[i])
  }

  /** The answer inference alone would have given. */
  ghost predicate Right(e: Engine, a: Answer)
    requires Lawful(e)
  {
    match a.outcome
    case Served(p, _) => Fresh(e, a.request) == Some(p)
    case Unnamed => Fresh(e, a.request).None?
    case _ => true
  }

  lemma HitIsFresh(e: Engine, requests: set<Request>, c: Cache, r: Request, fault: bool)
    requires World(e, requests) && StoreSound(e, requests, c) && r in requests
    ensures var (d, looked) := LookUp(c, BuildKey(e, r), fault);
      StoreSound(e, requests, d) && (looked.Hit? ==> Fresh(e, r) == Some(looked.predictions))
  {
    hide Fresh, BuildKey, Lawful;
    var (d, looked) := LookUp(c, BuildKey(e, r), fault);
    if looked.Hit? {
      assert Sound(e, requests, BuildKey(e, r), looked.predictions);
      var q :| q in requests && BuildKey(e, q) == BuildKey(e, r) && Fresh(e, q) == Some(looked.predictions);
      KeyDeterminesAnswer(e, requests, q, r);
    }
  }

  lemma FinishSound(e: Engine, requests: set<Request>, s: State, id: nat, outcome: Outcome)
    requires Lawful(e) && FlightsSound(e, requests, s) && AnswersFresh(e, s) && id in s.flights
    requires Right(e, Answer(id, s.flights[id].request, outcome))
    ensures FlightsSound(e, requests, Finish(s, id, outcome)) && AnswersFresh(e, Finish(s, id, outcome))
  {
    hide Fresh, Lawful;
  }

  lemma PutSound(e: Engine, requests: set<Request>, c: Cache, r: Request, p: seq<Prediction>, fault: bool)
    requires Lawful(e) && StoreSound(e, requests, c) && r in requests && Fresh(e, r) == Some(p)
    ensures StoreSound(e, requests, Put(c, BuildKey(e, r), p, fault))
  {
    hide Fresh, BuildKey, Lawful;
    assert Sound(e, requests, BuildKey(e, r), p);
  }

  ghost predicate AllSound(e: Engine, requests: set<Request>, s: State)
    requires Lawful(e)
  {
    StoreSound(e, requests, s.cache) && FlightsSound(e, requests, s) && AnswersFresh(e, s)
  }

  lemma StepKeepsSound(e: Engine, enabled: bool, requests: set<Request>, s: State, step: Step)
    requires World(e, requests) && Can(s, step) && AllSound(e, requests, s)
    requires step.Arrive? ==> step.request in requests
    ensures AllSound(e, requests, Do(e, enabled, s, step))
  {
    hide Fresh, BuildKey, Lawful, Finish;
    match step {
      case Arrive(id, r) =>
      case GetReturns(id, fault) =>
        var r := s.flights[id].request;
        var (c, looked) := LookUp(s.cache, BuildKey(e, r), fault);
        HitIsFresh(e, requests, s.cache, r, fault);
        if looked.Hit? {
          FinishSound(e, requests, s.(cache := c), id, Served(looked.predictions, true));
          FinishFrame(s.(cache := c), id, Served(looked.predictions, true));
        } else if looked.Malformed? {
          FinishSound(e, requests, s.(cache := c), id, Misread);
          FinishFrame(s.(cache := c), id, Misread);
        } else if looked.Raised? {
          FinishSound(e, requests, s.(cache := c), id, Unread(looked.error));
          FinishFrame(s.(cache := c), id, Unread(looked.error));
        }
      case DeleteReturns(id, fault) =>
      case InferReturns(id, ok) =>
        var r := s.flights[id].request;
        if !ok {
          FinishSound(e, requests, s, id, InferenceFailed);
          FinishFrame(s, id, InferenceFailed);
        } else if Fresh(e, r).None? {
          FinishSound(e, requests, s, id, Unnamed);
          FinishFrame(s, id, Unnamed);
        } else if !(r.useCache && enabled) {
          FinishSound(e, requests, s, id, Served(Fresh(e, r).value, false));
          FinishFrame(s, id, Served(Fresh(e, r).value, false));
        }
      case SetReturns(id, fault) =>
        var r, p := s.flights[id].request, s.flights[id].stage.predictions;
        PutSound(e, requests, s.cache, r, p, fault);
        var t := s.(cache := Put(s.cache, BuildKey(e, r), p, fault));
        FinishSound(e, requests, t, id, Served(p, false));
        FinishFrame(t, id, Served(p, false));
      case Lose(key) =>
      case Spoil(key, entry) =>
      case Cancel(id, applied) =>
        var f := s.flights[id];
        InterruptedSound(e, requests, s.cache, f, applied);
        var t := s.(cache := Interrupted(s.cache, BuildKey(e, f.request), f.stage, applied));
        FinishSound(e, requests, t, id, Cancelled);
        FinishFrame(t, id, Cancelled);
    }
  }

  lemma InterruptedSound(e: Engine, requests: set<Request>, c: Cache, f: Flight, applied: bool)
    requires Lawful(e) && StoreSound(e, requests, c) && f.request in requests
    requires f.stage.Storing? ==> Fresh(e, f.request) == Some(f.stage.predictions)
    ensures StoreSound(e, requests, Interrupted(c, BuildKey(e, f.request), f.stage, applied))
  {
    hide Fresh, BuildKey, Lawful;
    if f.stage.Storing? {
      PutSound(e, requests, c, f.request, f.stage.predictions, false);
    }
  }

  lemma FinishFrame(s: State, id: nat, outcome: Outcome)
    requires id in s.flights
    ensures Finish(s, id, outcome).cache == s.cache
  {
  }

  lemma {:induction false} RunKeepsSound(e: Engine, enabled: bool, requests: set<Request>, steps: seq<Step>)
    requires World(e, requests) && Run(e, enabled, steps) && Asks(steps, requests)
    ensures AllSound(e, requests, After(e, enabled, steps))
  {
    hide AllSound, Do, Can, Lawful;
    if steps == [] {
      StartsSound(e, requests);
    } else {
      RunKeepsSound(e, enabled, requests, steps[..|steps| - 1]);
      StepKeepsSound(e, enabled, requests, After(e, enabled, steps[..|steps| - 1]), steps[|steps| - 1]);
    }
  }

  lemma StartsSound(e: Engine, requests: set<Request>)
    requires Lawful(e)
    ensures AllSound(e, requests, INITIAL)
  {
  }

  /**
    Whatever requests overlap, whatever entries expire or are spoilt and whichever
    Redis calls fail: a served answer is the one inference without a cache gives for
    that image, model and options.
   */
  lemma AnswersAreFresh(e: Engine, enabled: bool, requests: set<Request>, steps: seq<Step>, i: nat)
    requires World(e, requests) && Run(e, enabled, steps) && Asks(steps, requests)
    requires i < |After(e, enabled, steps).answers|
    ensures var a := After(e, enabled, steps).answers[i];
      && (a.outcome.Served? ==> Fresh(e, a.request) == Some(a.outcome.predictions))
      && (a.outcome.Unnamed? ==> Fresh(e, a.request).None?)
  {
    hide Fresh, Lawful, Do, Can;
    RunKeepsSound(e, enabled, requests, steps);
    assert Right(e, After(e, enabled, steps).answers[i]);
  }

  /** Every prediction that is ever served names its class and its probability right. */
  lemma AnswersAreLabelled(e: Engine, enabled: bool, requests: set<Request>, steps: seq<Step>, i: nat, j: nat)
    requires World(e, requests) && Run(e, enabled, steps) && Asks(steps, requests)
    requires i < |After(e, enabled, steps).answers| && After(e, enabled, steps).answers[i].outcome.Served?
    requires j < |After(e, enabled, steps).answers[i].outcome.predictions|
    ensures var a := After(e, enabled, steps).answers[i]; SaysOf(e, a.request, a.outcome.predictions[j])
  {
    hide Fresh, Lawful, Do, Can, SaysOf;
    AnswersAreFresh(e, enabled, requests, steps, i);
    FreshSays(e, After(e, enabled, steps).answers[i].request, j);
  }

  // ----------------------------------------------------- fail-open and bookkeeping

  /** How many of its own steps a request may still need. */
  function Rank(s: State, id: nat): nat {
    if id !in s.flights then 0
    else match s.flights[id].stage
      case Looking => 4
      case Deleting => 3
      case Running => 2
      case Storing(_) => 1
  }

  predicate OwnStep(step: Step, id: nat) {
    match step
    case GetReturns(i, _) => i == id
    case DeleteReturns(i, _) => i == id
    case InferReturns(i, _) => i == id
    case SetReturns(i, _) => i == id
    case Cancel(i, _) => i == id
    case _ => false
  }

  /** The lookup of request `r` finds a value that is JSON but no payload, or that cannot be read. */
  predicate ReadsForeign(e: Engine, s: State, r: Request, step: Step) {
    && step.GetReturns? && !step.fault
    && var key := BuildKey(e, r);
       key in s.cache.store && (s.cache.store[key].Misshapen? || s.cache.store[key].Unreadable?)
  }

  /**
    Each own step brings a request nearer to an answer and no other step disturbs it.  It
    ends without predictions exactly by inference failing or naming no class, by
    cancellation, or by looking up a value that is JSON of the wrong shape, nested beyond
    the parser's limit or no UTF-8: a failed Redis call, a lost entry, a null or text that
    is no JSON never ends it.
   */
  lemma CacheNeverFailsRequests(e: Engine, enabled: bool, s: State, step: Step, id: nat)
    requires Lawful(e) && Can(s, step) && id in s.flights
    ensures var t := Do(e, enabled, s, step);
      && (OwnStep(step, id) ==> Rank(t, id) < Rank(s, id))
      && (!OwnStep(step, id) ==> id in t.flights && t.flights[id] == s.flights[id])
      && (id !in t.flights ==>
            && |t.answers| == |s.answers| + 1
            && var a := t.answers[|s.answers|];
               && a.id == id && a.request == s.flights[id].request
               && (!a.outcome.Served? <==>
                     || (step.InferReturns? && (!step.ok || Fresh(e, a.request).None?))
                     || step.Cancel?
                     || ReadsForeign(e, s, a.request, step)))
  {
    hide Fresh, BuildKey, Lawful;
  }

  /** Answered from a stored value: with its predictions, or by failing to read it. */
  predicate FromHit(o: Outcome) {
    (o.Served? && o.cached) || o.Misread?
  }

  predicate FromUnread(o: Outcome) {
    o.Unread?
  }

  function CountAnswers(answers: seq<Answer>, counted: Outcome -> bool): nat {
    if answers == [] then 0
    else
      CountAnswers(answers[..|answers| - 1], counted) + if counted(answers[|answers| - 1].outcome) then 1 else 0
  }

  function CountSteps(steps: seq<Step>, counted: Step -> bool): nat {
    if steps == [] then 0
    else CountSteps(steps[..|steps| - 1], counted) + if counted(steps[|steps| - 1]) then 1 else 0
  }

  predicate IsLookup(step: Step) {
    step.GetReturns?
  }

  predicate IsWriteFault(step: Step) {
    (step.DeleteReturns? || step.SetReturns?) && step.fault
  }

  function Trail(answers: seq<Answer>): seq<AuditRecord> {
    if answers == [] then []
    else
      var a := answers[|answers| - 1];
      Trail(answers[..|answers| - 1]) + AuditOf(a.id, a.outcome)
  }

  /** A lookup that reads a stored null. */
  ghost predicate ReadsNull(e: Engine, s: State, step: Step)
    requires Can(s, step)
  {
    && step.GetReturns? && !step.fault
    && var key := BuildKey(e, s.flights[step.id].request);
       key in s.cache.store && s.cache.store[key].NullValue?
  }

  ghost function NullReads(e: Engine, enabled: bool, steps: seq<Step>): nat
    requires Lawful(e) && Run(e, enabled, steps)
  {
    if steps == [] then 0
    else
      NullReads(e, enabled, steps[..|steps| - 1])
      + if ReadsNull(e, After(e, enabled, steps[..|steps| - 1]), steps[|steps| - 1]) then 1 else 0
  }

  predicate Balanced(s: State, lookups: nat, writeFaults: nat, nullReads: nat) {
    && s.cache.hits == CountAnswers(s.answers, FromHit) + nullReads
    && s.cache.hits + s.cache.misses + s.cache.errors + CountAnswers(s.answers, FromUnread) == lookups + writeFaults
    && s.audits == Trail(s.answers)
  }

  lemma OneMoreAnswer(answers: seq<Answer>, a: Answer)
    ensures CountAnswers(answers + [a], FromHit) == CountAnswers(answers, FromHit) + if FromHit(a.outcome) then 1 else 0
    ensures CountAnswers(answers + [a], FromUnread)
         == CountAnswers(answers, FromUnread) + if FromUnread(a.outcome) then 1 else 0
    ensures Trail(answers + [a]) == Trail(answers) + AuditOf(a.id, a.outcome)
  {
    assert (answers + [a])[..|answers|] == answers;
  }

  lemma StepBalances(e: Engine, enabled: bool, s: State, step: Step, lookups: nat, writeFaults: nat, nullReads: nat)
    requires Lawful(e) && Can(s, step) && Balanced(s, lookups, writeFaults, nullReads)
    ensures Balanced(Do(e, enabled, s, step), lookups + (if IsLookup(step) then 1 else 0),
                     writeFaults + (if IsWriteFault(step) then 1 else 0),
                     nullReads + (if ReadsNull(e, s, step) then 1 else 0))
  {
    hide Fresh, BuildKey, Lawful, AuditOf, CountAnswers, Trail;
    var t := Do(e, enabled, s, step);
    if t.answers != s.answers {
      OneMoreAnswer(s.answers, t.answers[|s.answers|]);
    }
  }

  /**
    Over every run: hits are the answers that came from a stored value plus the stored
    nulls read; every lookup is counted once as a hit, a miss or an error, unless it ended
    its request by raising, and every failed write once as an error; and the audit trail
    is the answers' records in order.
   */
  lemma {:induction false} RunBalances(e: Engine, enabled: bool, steps: seq<Step>)
    requires Lawful(e) && Run(e, enabled, steps)
    ensures Balanced(After(e, enabled, steps), CountSteps(steps, IsLookup), CountSteps(steps, IsWriteFault),
                     NullReads(e, enabled, steps))
  {
    hide Fresh, BuildKey, Lawful, Do, Can;
    if steps != [] {
      var front := steps[..|steps| - 1];
      RunBalances(e, enabled, front);
      StepBalances(e, enabled, After(e, enabled, front), steps[|steps| - 1],
                   CountSteps(front, IsLookup), CountSteps(front, IsWriteFault), NullReads(e, enabled, front));
    }
  }

  /** What a step makes the cache count. */
  datatype Counted = AsHit | AsMiss | AsError

  /** A lookup counts once unless reading raises, and a write once if Redis fails. */
  ghost function CountsAs(e: Engine, s: State, step: Step): Option<Counted>
    requires Can(s, step)
  {
    match step
    case GetReturns(id, fault) =>
      var key := BuildKey(e, s.flights[id].request);
      if fault then Some(AsError)
      else if key !in s.cache.store then Some(AsMiss)
      else if s.cache.store[key].Undecodable? then Some(AsError)
      else if s.cache.store[key].Unreadable? then None
      else Some(AsHit)
    case DeleteReturns(_, fault) => if fault then Some(AsError) else None
    case SetReturns(_, fault) => if fault then Some(AsError) else None
    case _ => None
  }

  ghost function CountRun(e: Engine, enabled: bool, steps: seq<Step>, kind: Counted): nat
    requires Lawful(e) && Run(e, enabled, steps)
  {
    if steps == [] then 0
    else
      CountRun(e, enabled, steps[..|steps| - 1], kind)
      + if CountsAs(e, After(e, enabled, steps[..|steps| - 1]), steps[|steps| - 1]) == Some(kind) then 1 else 0
  }

  lemma StepCounts(e: Engine, enabled: bool, s: State, step: Step)
    requires Lawful(e) && Can(s, step)
    ensures var t := Do(e, enabled, s, step);
      var kind := CountsAs(e, s, step);
      && t.cache.hits == s.cache.hits + (if kind == Some(AsHit) then 1 else 0)
      && t.cache.misses == s.cache.misses + (if kind == Some(AsMiss) then 1 else 0)
      && t.cache.errors == s.cache.errors + (if kind == Some(AsError) then 1 else 0)
  {
    hide Fresh, BuildKey, Lawful;
  }

  /**
    Over every run: `hits` counts the lookups that found JSON, `misses` those that found
    nothing, and `errors` the failed calls and the lookups that found text that is no JSON.
   */
  lemma {:induction false} CountersExactly(e: Engine, enabled: bool, steps: seq<Step>)
    requires Lawful(e) && Run(e, enabled, steps)
    ensures var c := After(e, enabled, steps).cache;
      && c.hits == CountRun(e, enabled, steps, AsHit)
      && c.misses == CountRun(e, enabled, steps, AsMiss)
      && c.errors == CountRun(e, enabled, steps, AsError)
  {
    hide Lawful, Do, Can, CountsAs;
    if steps != [] {
      var front := steps[..|steps| - 1];
      CountersExactly(e, enabled, front);
      StepCounts(e, enabled, After(e, enabled, front), steps[|steps| - 1]);
    }
  }

  // ------------------------------------------------------------- who is audited

  /** Request ids - the correlation ids - are not used twice. */
  predicate DistinctArrivals(steps: seq<Step>) {
    forall i, j | 0 <= i < j < |steps| && steps[i].Arrive? && steps[j].Arrive? :: steps[i].id != steps[j].id
  }

  ghost predicate Arrived(steps: seq<Step>, id: nat) {
    exists i :: 0 <= i < |steps| && steps[i].Arrive? && steps[i].id == id
  }

  /** Every request in flight or answered has arrived, and none is answered while in flight or twice. */
  ghost predicate OnceEach(steps: seq<Step>, s: State) {
    && (forall id | id in s.flights :: Arrived(steps, id))
    && (forall i | 0 <= i < |s.answers| :: Arrived(steps, s.answers[i].id) && s.answers[i].id !in s.flights)
    && (forall i, j | 0 <= i < j < |s.answers| :: s.answers[i].id != s.answers[j].id)
  }

  lemma {:induction false} RunsOnceEach(e: Engine, enabled: bool, steps: seq<Step>)
    requires Lawful(e) && Run(e, enabled, steps) && DistinctArrivals(steps)
    ensures OnceEach(steps, After(e, enabled, steps))
  {
    hide Fresh, BuildKey, Lawful, Can, Do, OnceEach;
    if steps == [] {
      NobodyYet();
    } else {
      var front := steps[..|steps| - 1];
      RunsOnceEach(e, enabled, front);
      StepOnceEach(e, enabled, steps, After(e, enabled, front));
    }
  }

  lemma NobodyYet()
    ensures OnceEach([], INITIAL)
  {
  }

  lemma StepOnceEach(e: Engine, enabled: bool, steps: seq<Step>, s: State)
    requires Lawful(e) && steps != [] && DistinctArrivals(steps)
    requires OnceEach(steps[..|steps| - 1], s) && Can(s, steps[|steps| - 1])
    ensures OnceEach(steps, Do(e, enabled, s, steps[|steps| - 1]))
  {
    hide Fresh, BuildKey, Lawful, AuditOf, LookUp, Remove, Put, Interrupted;
    var front, step := steps[..|steps| - 1], steps[|steps| - 1];
    forall id | Arrived(front, id)
      ensures Arrived(steps, id) && (step.Arrive? ==> step.id != id)
    {
      var i :| 0 <= i < |front| && front[i].Arrive? && front[i].id == id;
      assert steps[i] == front[i];
    }
    if step.Arrive? {
      assert steps[|steps| - 1].id == step.id;
      assert Arrived(steps, step.id);
    }
  }

  predicate HasRecord(audits: seq<AuditRecord>, id: nat) {
    exists j :: 0 <= j < |audits| && audits[j].id == id
  }

  lemma {:induction false} TrailRecords(answers: seq<Answer>, id: nat)
    ensures HasRecord(Trail(answers), id)
      <==> exists i :: 0 <= i < |answers| && answers[i].id == id && AuditOf(id, answers[i].outcome) != []
  {
    if answers != [] {
      var n := |answers| - 1;
      TrailRecords(answers[..n], id);
      var before, mine := Trail(answers[..n]), AuditOf(answers[n].id, answers[n].outcome);
      assert Trail(answers) == before + mine;
      if HasRecord(before, id) {
        var j :| 0 <= j < |before| && before[j].id == id;
        assert (before + mine)[j].id == id;
      }
      if mine != [] && answers[n].id == id {
        assert (before + mine)[|before|].id == id;
      }
    }
  }

  /** The classes that top_k selects for a request. */
  ghost function SelectedIds(e: Engine, r: Request): seq<nat>
    requires Lawful(e)
  {
    var p := e.probabilities(r.model, r.image);
    var k := Min(r.options.topK, |p|);
    var perm := e.partitioned(p, k);
    assert InRange(perm[..k], |p|);
    TopK(p, r.options.topK, perm, e.sorted(Take(p, perm[..k]))).1
  }

  /** Every selected class has a name. */
  ghost predicate Named(e: Engine, r: Request)
    requires Lawful(e)
  {
    InRange(SelectedIds(e, r), |r.model.classNames|)
  }

  lemma NamedExactly(e: Engine, r: Request)
    requires Lawful(e)
    ensures Fresh(e, r).Some? <==> Named(e, r)
  {
  }

  /**
    Failures are audited too, says the code.  Over every run a request that ended has an
    audit record if and only if it was served from the cache, or inference failed, or
    every selected class has a name and neither its lookup nor a cancellation ended it.
   */
  lemma AuditedExactly(e: Engine, enabled: bool, requests: set<Request>, steps: seq<Step>, i: nat)
    requires World(e, requests) && Run(e, enabled, steps) && Asks(steps, requests) && DistinctArrivals(steps)
    requires i < |After(e, enabled, steps).answers|
    ensures var s := After(e, enabled, steps);
      var a := s.answers[i];
      HasRecord(s.audits, a.id) <==>
        || (a.outcome.Served? && a.outcome.cached)
        || a.outcome.InferenceFailed?
        || (!a.outcome.Misread? && !a.outcome.Unread? && !a.outcome.Cancelled? && Named(e, a.request))
  {
    hide Fresh, Lawful, Do, Can, Named, BuildKey;
    var s := After(e, enabled, steps);
    var a := s.answers[i];
    RunBalances(e, enabled, steps);
    RunsOnceEach(e, enabled, steps);
    RunKeepsSound(e, enabled, requests, steps);
    assert Right(e, a);
    NamedExactly(e, a.request);
    TrailRecords(s.answers, a.id);
    forall j | 0 <= j < |s.answers| && s.answers[j].id == a.id ensures j == i {
    }
  }

  /** What an audit record says of the request that it is about. */
  ghost predicate RecordOf(record: AuditRecord, a: Answer) {
    && record.id == a.id && (a.outcome.Served? || a.outcome.InferenceFailed?)
    && (record.success <==> a.outcome.Served?)
    && (record.cached <==> a.outcome.Served? && a.outcome.cached)
    && (record.top.Some? <==> a.outcome.Served? && a.outcome.predictions != [])
    && (record.top.Some? ==> record.top.value == a.outcome.predictions[0])
  }

  /** The records are those of the answers served or failed in inference, one each, in order. */
  ghost predicate RecordsOf(audits: seq<AuditRecord>, answers: seq<Answer>) {
    if answers == [] then audits == []
    else
      var n := |answers| - 1;
      if answers[n].outcome.Served? || answers[n].outcome.InferenceFailed?
      then audits != [] && RecordOf(Last(audits), answers[n]) && RecordsOf(Front(audits), answers[..n])
      else RecordsOf(audits, answers[..n])
  }

  lemma {:induction false} TrailSays(answers: seq<Answer>)
    ensures RecordsOf(Trail(answers), answers)
  {
    if answers != [] {
      var n := |answers| - 1;
      TrailSays(answers[..n]);
      var mine := AuditOf(answers[n].id, answers[n].outcome);
      var before := Trail(answers[..n]);
      assert Trail(answers) == before + mine;
      if mine == [] {
        assert before + mine == before;
      } else {
        assert Front(before + mine) == before && Last(before + mine) == mine[0];
      }
    }
  }

  /** Over every run each record says whether its request succeeded, where from, and its best class. */
  lemma RecordsSay(e: Engine, enabled: bool, steps: seq<Step>)
    requires Lawful(e) && Run(e, enabled, steps)
    ensures RecordsOf(After(e, enabled, steps).audits, After(e, enabled, steps).answers)
  {
    hide Lawful, Do, Can;
    RunBalances(e, enabled, steps);
    TrailSays(After(e, enabled, steps).answers);
  }

  /** A model without class names: the request ends in an exception and leaves no record. */
  lemma UnnamedLeavesNoRecord(e: Engine, r: Request)
    requires Lawful(e) && r.model.classNames == [] && !r.useCache
    requires r.options.topK > 0 && |e.probabilities(r.model, r.image)| > 0
    ensures var steps := [Arrive(0, r), InferReturns(0, true)];
      && Run(e, false, steps)
      && After(e, false, steps).answers == [Answer(0, r, Unnamed)] && After(e, false, steps).audits == []
  {
    hide Fresh, Lawful, BuildKey;
    var arrive, infer := Arrive(0, r), InferReturns(0, true);
    var steps := [arrive, infer];
    assert steps[..1] == [arrive] && [arrive][..0] == [];
    assert Run(e, false, []) && After(e, false, []) == INITIAL;
    assert Run(e, false, [arrive]) && After(e, false, [arrive]) == Do(e, false, INITIAL, arrive);
    FreshUnnamed(e, r);
    assert After(e, false, steps) == Do(e, false, After(e, false, steps[..1]), infer);
  }

  lemma FreshUnnamed(e: Engine, r: Request)
    requires Lawful(e) && r.model.classNames == [] && r.options.topK > 0 && |e.probabilities(r.model, r.image)| > 0
    ensures Fresh(e, r).None?
  {
    hide Lawful;
    NamedExactly(e, r);
    SelectedCount(e, r);
    OutOfRange(SelectedIds(e, r));
  }

  lemma OutOfRange(ids: seq<nat>)
    requires |ids| > 0
    ensures !InRange(ids, 0)
  {
    assert ids[0] >= 0;
  }

  lemma SelectedCount(e: Engine, r: Request)
    requires Lawful(e)
    ensures |SelectedIds(e, r)| == Min(r.options.topK, |e.probabilities(r.model, r.image)|)
  {
    var p := e.probabilities(r.model, r.image);
    var k := Min(r.options.topK, |p|);
    var perm := e.partitioned(p, k);
    assert |perm[..k]| == k;
  }

  // ------------------------------------------------------------------ one request

  /** Which calls of one request fail. */
  datatype Faults = Faults(get: bool, delete: bool, infer: bool, set_: bool)

  ghost function Advance(e: Engine, enabled: bool, s: State, step: Step): State
    requires Lawful(e)
  {
    if Can(s, step) then Do(e, enabled, s, step) else s
  }

  /** A request that nothing else overlaps with. */
  ghost function Alone(e: Engine, enabled: bool, s: State, id: nat, r: Request, f: Faults): State
    requires Lawful(e) && id !in s.flights
  {
    var s := Do(e, enabled, s, Arrive(id, r));
    var s := Advance(e, enabled, s, GetReturns(id, f.get));
    var s := Advance(e, enabled, s, DeleteReturns(id, f.delete));
    var s := Advance(e, enabled, s, InferReturns(id, !f.infer));
    Advance(e, enabled, s, SetReturns(id, f.set_))
  }

  lemma AdvanceKeepsSound(e: Engine, enabled: bool, requests: set<Request>, s: State, step: Step)
    requires World(e, requests) && AllSound(e, requests, s)
    requires step.Arrive? ==> step.request in requests
    ensures AllSound(e, requests, Advance(e, enabled, s, step))
  {
    hide Lawful, Do, AllSound;
    if Can(s, step) {
      StepKeepsSound(e, enabled, requests, s, step);
    }
  }

  lemma AloneKeepsSound(e: Engine, enabled: bool, requests: set<Request>, s: State, id: nat, r: Request, f: Faults)
    requires World(e, requests) && AllSound(e, requests, s) && id !in s.flights && r in requests
    ensures AllSound(e, requests, Alone(e, enabled, s, id, r, f))
  {
    hide AllSound, Do, Advance, Lawful;
    StepKeepsSound(e, enabled, requests, s, Arrive(id, r));
    var arrived := Do(e, enabled, s, Arrive(id, r));
    AdvanceKeepsSound(e, enabled, requests, arrived, GetReturns(id, f.get));
    var looked := Advance(e, enabled, arrived, GetReturns(id, f.get));
    AdvanceKeepsSound(e, enabled, requests, looked, DeleteReturns(id, f.delete));
    var removed := Advance(e, enabled, looked, DeleteReturns(id, f.delete));
    AdvanceKeepsSound(e, enabled, requests, removed, InferReturns(id, !f.infer));
    var inferred := Advance(e, enabled, removed, InferReturns(id, !f.infer));
    AdvanceKeepsSound(e, enabled, requests, inferred, SetReturns(id, f.set_));
  }

  /** What classify does to the cache, and its outcome, when nothing overlaps. */
  ghost function Handled(e: Engine, enabled: bool, c: Cache, r: Request, f: Faults): (Cache, Outcome)
    requires Lawful(e)
  {
    var key := BuildKey(e, r);
    var caching := r.useCache && enabled;
    var (c, looked) := if caching then LookUp(c, key, f.get) else (c, Missed);
    if looked.Hit? then (c, Served(looked.predictions, true))
    else if looked.Malformed? then (c, Misread)
    else if looked.Raised? then (c, Unread(looked.error))
    else
      var c := if looked.Spoiled? then Remove(c, key, f.delete) else c;
      if f.infer then (c, InferenceFailed)
      else if Fresh(e, r).None? then (c, Unnamed)
      else (if caching then Put(c, key, Fresh(e, r).value, f.set_) else c, Served(Fresh(e, r).value, false))
  }

  function InFlight(s: State, id: nat, r: Request, stage: Stage): State {
    s.(flights := s.flights[id := Flight(r, stage)])
  }

  function Answered(s: State, id: nat, r: Request, o: Outcome): State {
    s.(answers := s.answers + [Answer(id, r, o)], audits := s.audits + AuditOf(id, o))
  }

  lemma FinishLands(s: State, id: nat, r: Request, stage: Stage, o: Outcome)
    requires id !in s.flights
    ensures Finish(InFlight(s, id, r, stage), id, o) == Answered(s, id, r, o)
  {
    assert s.flights[id := Flight(r, stage)] - {id} == s.flights;
  }

  /** From the forward pass on. */
  lemma RunsOn(e: Engine, enabled: bool, s: State, id: nat, r: Request, f: Faults)
    requires Lawful(e) && id !in s.flights
    ensures var inferred := Advance(e, enabled, InFlight(s, id, r, Running), InferReturns(id, !f.infer));
      var done := Advance(e, enabled, inferred, SetReturns(id, f.set_));
      if f.infer then done == Answered(s, id, r, InferenceFailed)
      else if Fresh(e, r).None? then done == Answered(s, id, r, Unnamed)
      else
        var c := if r.useCache && enabled then Put(s.cache, BuildKey(e, r), Fresh(e, r).value, f.set_) else s.cache;
        done == Answered(s.(cache := c), id, r, Served(Fresh(e, r).value, false))
  {
    hide Lawful, BuildKey, Fresh, AuditOf, Finish, Put;
    FinishLands(s, id, r, Running, InferenceFailed);
    FinishLands(s, id, r, Running, Unnamed);
    if Fresh(e, r).Some? {
      var p := Fresh(e, r).value;
      FinishLands(s, id, r, Running, Served(p, false));
      assert Move(InFlight(s, id, r, Running), id, Storing(p)) == InFlight(s, id, r, Storing(p));
      FinishLands(s.(cache := Put(s.cache, BuildKey(e, r), p, f.set_)), id, r, Storing(p), Served(p, false));
    }
  }

  /** From the lookup up to the forward pass. */
  lemma LooksFirst(e: Engine, enabled: bool, s: State, id: nat, r: Request, f: Faults)
    requires Lawful(e) && id !in s.flights
    ensures var key := BuildKey(e, r);
      var (c, looked) := LookUp(s.cache, key, f.get);
      var seen := Advance(e, enabled, InFlight(s, id, r, Looking), GetReturns(id, f.get));
      var onward := Advance(e, enabled, seen, DeleteReturns(id, f.delete));
      match looked
      case Hit(p) => onward == Answered(s.(cache := c), id, r, Served(p, true))
      case Malformed => onward == Answered(s.(cache := c), id, r, Misread)
      case Raised(error) => onward == Answered(s.(cache := c), id, r, Unread(error))
      case Missed => onward == InFlight(s.(cache := c), id, r, Running)
      case Spoiled => onward == InFlight(s.(cache := Remove(c, key, f.delete)), id, r, Running)
  {
    hide Lawful, BuildKey, Fresh, AuditOf, Finish, LookUp, Remove;
    var (c, looked) := LookUp(s.cache, BuildKey(e, r), f.get);
    match looked {
      case Hit(p) => FinishLands(s.(cache := c), id, r, Looking, Served(p, true));
      case Malformed => FinishLands(s.(cache := c), id, r, Looking, Misread);
      case Raised(error) => FinishLands(s.(cache := c), id, r, Looking, Unread(error));
      case Missed =>
        assert Move(InFlight(s.(cache := c), id, r, Looking), id, Running) == InFlight(s.(cache := c), id, r, Running);
      case Spoiled =>
        var t := s.(cache := c);
        assert Move(InFlight(t, id, r, Looking), id, Deleting) == InFlight(t, id, r, Deleting);
    }
  }

  /** The steps of an undisturbed request always end in one answer, and in this one. */
  lemma AloneIsHandled(e: Engine, enabled: bool, s: State, id: nat, r: Request, f: Faults)
    requires Lawful(e) && id !in s.flights
    ensures var (c, o) := Handled(e, enabled, s.cache, r, f);
      Alone(e, enabled, s, id, r, f) == Answered(s.(cache := c), id, r, o)
  {
    hide Lawful, BuildKey, Fresh, AuditOf, LookUp, Remove, Put;
    if r.useCache && enabled {
      LooksFirst(e, enabled, s, id, r, f);
      var (c, looked) := LookUp(s.cache, BuildKey(e, r), f.get);
      if looked.Missed? || looked.Spoiled? {
        var c := if looked.Spoiled? then Remove(c, BuildKey(e, r), f.delete) else c;
        RunsOn(e, enabled, s.(cache := c), id, r, f);
      }
    } else {
      RunsOn(e, enabled, s, id, r, f);
    }
  }

  /** Once served and stored, the same request is answered from the cache with the same predictions. */
  lemma RepeatIsHit(e: Engine, s: State, id: nat, r: Request, f: Faults, again: nat, g: Faults)
    requires Lawful(e) && id !in s.flights && again !in s.flights && r.useCache && !g.get
    requires Handled(e, true, s.cache, r, f).1.Served? && (!f.set_ || Handled(e, true, s.cache, r, f).1.cached)
    ensures var served := Handled(e, true, s.cache, r, f).1.predictions;
      var once := Alone(e, true, s, id, r, f);
      && again !in once.flights
      && Alone(e, true, once, again, r, g).answers == once.answers + [Answer(again, r, Served(served, true))]
  {
    hide Lawful, BuildKey, Fresh, Alone;
    AloneIsHandled(e, true, s, id, r, f);
    var once := Alone(e, true, s, id, r, f);
    AloneIsHandled(e, true, once, again, r, g);
  }

  /** Text that is no JSON does not outlive the request that finds it, unless Redis refuses to delete it. */
  lemma UndecodableIsDropped(e: Engine, s: State, id: nat, r: Request, f: Faults)
    requires Lawful(e) && id !in s.flights && r.useCache && !f.get && !f.delete
    requires BuildKey(e, r) in s.cache.store && s.cache.store[BuildKey(e, r)].Undecodable?
    ensures var store := Alone(e, true, s, id, r, f).cache.store;
      BuildKey(e, r) in store ==> store[BuildKey(e, r)].Payload?
  {
    hide Lawful, BuildKey, Fresh, Alone;
    AloneIsHandled(e, true, s, id, r, f);
  }

  class InferenceService {
    const cache: CacheService
    /** What was handed to the audit service. */
    var audits: seq<AuditRecord>

    constructor (cache: CacheService)
      ensures this.cache == cache && audits == []
    {
      this.cache := cache;
      audits := [];
    }

    /** classify, once the upload is validated and the model resolved. */
    method Classify(e: Engine, id: nat, r: Request, f: Faults) returns (o: Outcome)
      requires Lawful(e)
      modifies this, cache
      ensures Alone(e, cache.enabled, State(old(cache.View()), map[], [], old(audits)), id, r, f)
           == State(cache.View(), map[], [Answer(id, r, o)], audits)
    {
      hide Lawful, BuildKey, Fresh, Alone;
      AloneIsHandled(e, cache.enabled, State(cache.View(), map[], [], audits), id, r, f);
      var key := BuildKey(e, r);
      if r.useCache {
        var cached := cache.Get(key, f.get, f.delete);
        if cached.Err? {
          return Unread(cached.error);
        }
        if cached.value.Some? {
          if cached.value.value.Misshapen? {
            return Misread;
          }
          o := Served(cached.value.value.predictions, true);
          audits := audits + AuditOf(id, o);
          return;
        }
      }
      if f.infer {
        o := InferenceFailed;
        audits := audits + AuditOf(id, o);
        return;
      }
      var predictions := Infer(e, r);
      if predictions.None? {
        return Unnamed;
      }
      o := Served(predictions.value, false);
      if r.useCache {
        var _ := cache.Set(key, predictions.value, f.set_);
      }
      audits := audits + AuditOf(id, o);
    }

    /** The forward pass and its decoding. */
    static method Infer(e: Engine, r: Request) returns (predictions: Option<seq<Prediction>>)
      requires Lawful(e)
      ensures predictions == Fresh(e, r)
    {
      var p := e.probabilities(r.model, r.image);
      var k := Min(r.options.topK, |p|);
      var perm := e.partitioned(p, k);
      assert InRange(perm[..k], |p|);
      var (scores, indices) := TopK(p, r.options.topK, perm, e.sorted(Take(p, perm[..k])));
      predictions := DecodeClassification(r.model, scores, indices, r.options.includeProbabilities);
    }
  }
}
