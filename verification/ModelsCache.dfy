/** `ListModels` of the Go client: a cache filled by the first successful fetch, copied on the way in and on
    the way out so that no caller shares memory with it. */
module ModelsCache {
  import opened Wrappers

  type Model = string

  class Client {
    var modelsCache: array?<Model>

    constructor ()
      ensures modelsCache == null
    {
      modelsCache := null;
    }

    /** `source` is what a fetch would yield; it is asked only when nothing is cached. An empty list is a
        list: it is cached like any other. */
    method ListModels(source: Result<array<Model>, string>) returns (r: Result<array<Model>, string>, fetched: bool)
      modifies this
      ensures fetched <==> old(modelsCache) == null
      ensures !fetched ==> modelsCache == old(modelsCache)
      ensures fetched && source.Err? ==> r == Err(source.error) && modelsCache == null
      ensures fetched && source.Ok? ==> modelsCache != null && fresh(modelsCache) && modelsCache[..] == source.value[..]
      ensures !fetched || source.Ok? ==>
        r.Ok? && fresh(r.value) && r.value != modelsCache && r.value[..] == modelsCache[..]
    {
      if modelsCache != null {
        var copied := CopyOf(modelsCache);
        return Ok(copied), false;
      }
      match source
      case Err(e) =>
        return Err(e), true;
      case Ok(models) =>
        modelsCache := CopyOf(models);
        var copied := CopyOf(models);
        return Ok(copied), true;
    }

    /** The part of `Stop` and `ForceStop` that concerns the cache. */
    method Clear()
      modifies this
      ensures modelsCache == null
    {
      modelsCache := null;
    }
  }

  method CopyOf(a: array<Model>) returns (b: array<Model>)
    ensures fresh(b) && b[..] == a[..]
  {
    b := new Model[a.Length];
    forall i | 0 <= i < a.Length {
      b[i] := a[i];
    }
  }

  // ---------- any use of the cache ----------

  /** A call with what its fetch would yield; a caller or the fetch's owner overwriting a slot of the
      `array`-th array ever handed over; the client stopping. */
  datatype Use =
    | List(source: Result<seq<Model>, string>)
    | Overwrite(array: nat, slot: nat, model: Model)
    | Stop

  datatype Answer = Answer(result: Result<seq<Model>, string>, fetched: bool)

  /** What one use answers, if anything, and leaves in a cache that nobody else can touch. */
  function Respond(cache: Option<seq<Model>>, use: Use): (Option<Answer>, Option<seq<Model>>) {
    match use
    case Overwrite(_, _, _) => (None, cache)
    case Stop => (None, None)
    case List(source) =>
      match (cache, source)
      case (Some(models), _) => (Some(Answer(Ok(models), false)), cache)
      case (None, Ok(models)) => (Some(Answer(Ok(models), true)), Some(models))
      case (None, Err(e)) => (Some(Answer(Err(e), true)), None)
  }

  /** Reference: the answers to all uses so far and the cache after them. */
  function Answers(uses: seq<Use>): (seq<Answer>, Option<seq<Model>>) {
    if uses == [] then ([], None) else
    var (log, cache) := Answers(uses[..|uses| - 1]);
    var (answer, after) := Respond(cache, uses[|uses| - 1]);
    (log + ToSeq(answer), after)
  }

  /** Runs any uses on a client, with real arrays. Sources and results all go to callers that overwrite
      them at will; every call still answers as the reference says. */
  method Drive(uses: seq<Use>) returns (log: seq<Answer>)
    ensures log == Answers(uses).0
  {
    var client := new Client();
    var shared: seq<array<Model>> := [];
    log := [];
    for n := 0 to |uses|
      invariant fresh(client) && (forall a :: a in shared ==> fresh(a))
      invariant client.modelsCache != null ==> fresh(client.modelsCache) && client.modelsCache !in shared
      invariant log == Answers(uses[..n]).0
      invariant match Answers(uses[..n]).1
                case None => client.modelsCache == null
                case Some(models) => client.modelsCache != null && client.modelsCache[..] == models
    {
      assert uses[..n + 1][..n] == uses[..n];
      match uses[n]
      case Stop =>
        client.Clear();
      case Overwrite(k, slot, model) =>
        if k < |shared| && slot < shared[k].Length {
          assert shared[k] in shared;
          shared[k][slot] := model;
        }
      case List(Err(e)) =>
        var r, fetched := client.ListModels(Err(e));
        if r.Ok? {
          shared := shared + [r.value];
          log := log + [Answer(Ok(r.value[..]), fetched)];
        } else {
          log := log + [Answer(Err(r.error), fetched)];
        }
      case List(Ok(models)) =>
        var source := new Model[|models|](i requires 0 <= i < |models| => models[i]);
        assert source[..] == models;
        var r, fetched := client.ListModels(Ok(source));
        shared := shared + [source, r.value];
        log := log + [Answer(Ok(r.value[..]), fetched)];
    }
    assert uses[..|uses|] == uses;
  }

  predicate NoStop(uses: seq<Use>) {
    forall i :: 0 <= i < |uses| ==> !uses[i].Stop?
  }

  /** Number of answers that came from a successful fetch. */
  function Fetches(log: seq<Answer>): nat {
    if log == [] then 0
    else Fetches(log[..|log| - 1]) + (if log[|log| - 1].fetched && log[|log| - 1].result.Ok? then 1 else 0)
  }

  lemma FetchesAppend(log: seq<Answer>, a: Answer)
    ensures Fetches(log + [a]) == Fetches(log) + (if a.fetched && a.result.Ok? then 1 else 0)
  {
    assert (log + [a])[..|log|] == log;
  }

  /** The answers since an empty cache: at most one successful fetch, and its list in every success. */
  predicate OneSource(log: seq<Answer>, cache: Option<seq<Model>>) {
    && Fetches(log) == (if cache.Some? then 1 else 0)
    && (forall i :: 0 <= i < |log| && log[i].result.Ok? ==> cache == Some(log[i].result.value))
  }

  lemma RespondKeepsOneSource(log: seq<Answer>, cache: Option<seq<Model>>, use: Use)
    requires OneSource(log, cache) && !use.Stop?
    ensures var (answer, after) := Respond(cache, use); OneSource(log + ToSeq(answer), after)
  {
    var (answer, after) := Respond(cache, use);
    match answer
    case None => assert log + [] == log;
    case Some(a) => FetchesAppend(log, a);
  }

  lemma AnswersStep(uses: seq<Use>, use: Use)
    ensures var p := Answers(uses);
      var r := Respond(p.1, use);
      Answers(uses + [use]) == (p.0 + ToSeq(r.0), r.1)
  {
    assert (uses + [use])[..|uses|] == uses;
  }

  /** Between two stops: after `before`, which ends with an empty cache, uses without a stop answer with at
      most one successful fetch, and every successful answer is that fetch's list. */
  lemma {:induction false} OneFetchBetweenStops(before: seq<Use>, uses: seq<Use>)
    requires Answers(before).1 == None && NoStop(uses)
    ensures Answers(before).0 <= Answers(before + uses).0
    ensures OneSource(Answers(before + uses).0[|Answers(before).0|..], Answers(before + uses).1)
    decreases |uses|
  {
    hide Answers;
    var log0 := Answers(before).0;
    if uses == [] {
      assert before + uses == before;
      assert log0[|log0|..] == [];
    } else {
      var front, use := uses[..|uses| - 1], uses[|uses| - 1];
      OneFetchBetweenStops(before, front);
      assert before + uses == (before + front) + [use];
      AnswersStep(before + front, use);
      var was, cache := Answers(before + front).0, Answers(before + front).1;
      RespondKeepsOneSource(was[|log0|..], cache, use);
      var answer := ToSeq(Respond(cache, use).0);
      assert (was + answer)[|log0|..] == was[|log0|..] + answer;
    }
  }
}
