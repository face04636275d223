/**
 Map: runs a validator with a consumer that stores every pair it receives in
 a fresh map, and returns that map, or the error and no map.
 */
module Materialize {
  import opened Wrappers
  import opened Validators
  import opened ValidatorLaws

  /** The consumer Map installs: it stores the pair and never fails. */
  function Record(key: string, val: string): Option<string> {
    None
  }

  /** The map a sequence of stores produces, later stores overwriting earlier ones. */
  function Collect(trace: seq<Pair>): (m: map<string, string>)
    ensures m.Keys == set i | 0 <= i < |trace| :: trace[i].0
  {
    if |trace| == 0 then
      map[]
    else
      var last := trace[|trace| - 1];
      var m := Collect(trace[..|trace| - 1]);
      assert forall i :: 0 <= i < |trace| - 1 ==> trace[..|trace| - 1][i] == trace[i];
      m[last.0 := last.1]
  }

  /** Index `i` holds the last pair stored under its key. */
  ghost predicate LastFor(trace: seq<Pair>, i: int)
    requires 0 <= i < |trace|
  {
    forall j :: i < j < |trace| ==> trace[j].0 != trace[i].0
  }

  /** Last write wins: each key maps to the value of its last store. */
  lemma {:induction false} CollectLastWrite(trace: seq<Pair>, i: int)
    requires 0 <= i < |trace| && LastFor(trace, i)
    ensures trace[i].0 in Collect(trace) && Collect(trace)[trace[i].0] == trace[i].1
    decreases |trace|
  {
    var n := |trace| - 1;
    if i < n {
      var front := trace[..n];
      assert front[i] == trace[i];
      assert trace[n].0 != trace[i].0;
      assert LastFor(front, i) by {
        forall j | i < j < |front| ensures front[j].0 != front[i].0 {
          assert front[j] == trace[j];
        }
      }
      CollectLastWrite(front, i);
    }
  }

  lemma CollectLastWriteWins(trace: seq<Pair>)
    ensures forall i :: 0 <= i < |trace| && LastFor(trace, i) ==>
              trace[i].0 in Collect(trace) && Collect(trace)[trace[i].0] == trace[i].1
  {
    forall i | 0 <= i < |trace| && LastFor(trace, i)
      ensures trace[i].0 in Collect(trace) && Collect(trace)[trace[i].0] == trace[i].1
    {
      CollectLastWrite(trace, i);
    }
  }

  function Map(v: Validator, get: Getter): (r: Result<map<string, string>, Error>)
    ensures r.Failure? ==> !r.error.ConsumerErr?
    ensures r.Success? ==> r.value.Keys <= Keys(v)
  {
    var run := Eval(v, get, Record);
    assert NeverFails(Record);
    NoConsumerErrorFromQuietConsumer(v, get, Record);
    EmitsOnlyItsKeys(v, get, Record);
    if run.err.Some? then
      Failure(run.err.value)
    else
      assert forall i :: 0 <= i < |run.trace| ==> run.trace[i] in run.trace;
      Success(Collect(run.trace))
  }

  /** Map fails exactly when evaluation against any consumer that never
      fails does, and with the same error. */
  lemma MapFailsWithEval(v: Validator, get: Getter, cons: Consumer)
    requires NeverFails(cons)
    ensures Map(v, get).Failure? <==> Eval(v, get, cons).err.Some?
    ensures Map(v, get).Failure? ==> Eval(v, get, cons).err == Some(Map(v, get).error)
  {
    assert NeverFails(Record);
    QuietConsumersAgree(v, get, cons, Record);
  }

  /** `m` holds exactly the keys of `trace`, each with the value of its last store. */
  ghost predicate HoldsLastValues(m: map<string, string>, trace: seq<Pair>) {
    && m.Keys == (set i | 0 <= i < |trace| :: trace[i].0)
    && forall i :: 0 <= i < |trace| && LastFor(trace, i) ==> trace[i].0 in m && m[trace[i].0] == trace[i].1
  }

  /** On success Map holds exactly the keys evaluation against any consumer
      that never fails emits, each with the last value emitted for it. */
  lemma MapHoldsLastValues(v: Validator, get: Getter, cons: Consumer)
    requires NeverFails(cons)
    requires Map(v, get).Success?
    ensures HoldsLastValues(Map(v, get).value, Eval(v, get, cons).trace)
  {
    assert NeverFails(Record);
    QuietConsumersAgree(v, get, cons, Record);
    CollectLastWriteWins(Eval(v, get, cons).trace);
  }
}
