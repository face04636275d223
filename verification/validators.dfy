/**
 Validators: units that fetch named fields through a getter, run a checker on
 each present value and hand every accepted (key, value) pair to a consumer
 that may itself fail. Evaluation stops at the first error.

 A validator is a pure description; `Eval` runs it against a getter and a
 consumer and returns the ordered trace of consumer calls together with the
 error the run ended with, if any. The last call in the trace is the one that
 failed when the error is the consumer's own.
 */
module Validators {
  import opened Wrappers
  import opened Checkers

  /** Returns a field's value; "" means the field is absent. */
  type Getter = string -> string

  /** Receives each validated pair; Some(message) is the consumer's failure. */
  type Consumer = (string, string) -> Option<string>

  type Pair = (string, string)

  datatype Error =
    | Missing(key: string)                  // a required field is absent
    | Invalid(key: string, cause: CheckError) // the checker rejected the field's value
    | ConsumerErr(message: string)          // the consumer's own error, passed through unchanged

  /** The observable outcome of one evaluation. */
  datatype Run = Run(trace: seq<Pair>, err: Option<Error>)

  datatype Validator =
    | Req(key: string, check: Checker)
    | Opt(key: string, check: Checker)
    | OptDef(key: string, check: Checker, deflt: string)
    | Cond(key: string, check: Checker, yes: Option<Validator>, no: Option<Validator>)
    | Pack(validators: seq<Validator>)

  /** What the constructors insist on before returning a validator: Pack
      refuses an empty list and Cond refuses two absent branches. */
  predicate WellFormed(v: Validator) {
    match v
    case Req(_, _) => true
    case Opt(_, _) => true
    case OptDef(_, _, _) => true
    case Cond(_, _, yes, no) =>
      && (yes.Some? || no.Some?)
      && (yes.Some? ==> WellFormed(yes.value))
      && (no.Some? ==> WellFormed(no.value))
    case Pack(vs) => |vs| > 0 && AllWellFormed(vs)
  }

  predicate AllWellFormed(vs: seq<Validator>) {
    if |vs| == 0 then true else WellFormed(vs[0]) && AllWellFormed(vs[1..])
  }

  /** A run that did nothing and succeeded. */
  const Done: Run := Run([], None)

  /** `first` followed by `next`, unless `first` already failed. */
  function Then(first: Run, next: Run): Run {
    if first.err.Some? then first else Run(first.trace + next.trace, next.err)
  }

  /** One consumer call. */
  function Emit(key: string, val: string, cons: Consumer): (r: Run)
    ensures r.trace == [(key, val)]
    ensures r.err.None? <==> cons(key, val).None?
    ensures r.err.Some? ==> r.err.value == ConsumerErr(cons(key, val).value)
  {
    match cons(key, val)
    case None => Run([(key, val)], None)
    case Some(e) => Run([(key, val)], Some(ConsumerErr(e)))
  }

  /** The step every field validator takes on a present value: check it,
      then hand the normalised value to the consumer under the field's key. */
  function DoCheck(key: string, val: string, check: Checker, cons: Consumer): (r: Run)
    ensures check(val).Failure? ==> r.trace == [] && r.err == Some(Invalid(key, check(val).error))
    ensures check(val).Success? ==> r.trace == [(key, check(val).value)]
    ensures check(val).Success? ==> (r.err.None? <==> cons(key, check(val).value).None?)
    ensures check(val).Success? && cons(key, check(val).value).Some? ==>
              r.err == Some(ConsumerErr(cons(key, check(val).value).value))
    ensures r.err.Some? && r.err.value.ConsumerErr? ==>
              check(val).Success? && cons(key, check(val).value) == Some(r.err.value.message)
  {
    match check(val)
    case Failure(e) => Run([], Some(Invalid(key, e)))
    case Success(normalized) => Emit(key, normalized, cons)
  }

  function Eval(v: Validator, get: Getter, cons: Consumer): Run
    decreases v
  {
    match v
    case Req(key, check) =>
      var val := get(key);
      if |val| > 0 then DoCheck(key, val, check, cons) else Run([], Some(Missing(key)))
    case Opt(key, check) =>
      var val := get(key);
      if |val| > 0 then DoCheck(key, val, check, cons) else Done
    case OptDef(key, check, deflt) =>
      var val := get(key);
      if |val| > 0 then DoCheck(key, val, check, cons) else Emit(key, deflt, cons)
    case Cond(key, check, yes, no) =>
      var val := get(key);
      if |val| > 0 then
        var r := DoCheck(key, val, check, cons);
        if r.err.None? && yes.Some? then Then(r, Eval(yes.value, get, cons)) else r
      else if no.Some? then
        Eval(no.value, get, cons)
      else
        Done
    case Pack(vs) => EvalAll(vs, get, cons)
  }

  /** The loop inside Pack: each validator in turn, stopping at the first error. */
  function EvalAll(vs: seq<Validator>, get: Getter, cons: Consumer): Run
    decreases vs
  {
    if |vs| == 0 then
      Done
    else
      var r := Eval(vs[0], get, cons);
      if r.err.Some? then r else Then(r, EvalAll(vs[1..], get, cons))
  }

  // --------------------------------------------------------------- getters

  /** The getter reading a fixed map; a missing key reads as "". */
  function FromMap(m: map<string, string>): (get: Getter)
    ensures forall k :: k in m ==> get(k) == m[k]
    ensures forall k :: k !in m ==> get(k) == ""
  {
    (k: string) => if k in m then m[k] else ""
  }
}
