/**
 Laws of validator evaluation: how each field validator treats a present and
 an absent field, how Cond picks a branch, how Pack sequences and
 short-circuits, which keys a validator reads and emits, and what a consumer
 can and cannot change about a run.
 */
module ValidatorLaws {
  import opened Wrappers
  import opened Checkers
  import opened Validators

  // ------------------------------------------------------ field validators

  /** On a present value Req, Opt and OptDef behave alike: each runs the
      shared check-then-emit step under its own key. */
  lemma PresentFieldIsChecked(key: string, check: Checker, deflt: string, get: Getter, cons: Consumer)
    requires |get(key)| > 0
    ensures Eval(Req(key, check), get, cons) == DoCheck(key, get(key), check, cons)
    ensures Eval(Opt(key, check), get, cons) == DoCheck(key, get(key), check, cons)
    ensures Eval(OptDef(key, check, deflt), get, cons) == DoCheck(key, get(key), check, cons)
  {
  }

  /** On an absent value Req fails with a missing-key error, Opt succeeds,
      and neither calls the consumer. */
  lemma AbsentRequiredOrOptional(key: string, check: Checker, get: Getter, cons: Consumer)
    requires get(key) == ""
    ensures Eval(Req(key, check), get, cons) == Run([], Some(Missing(key)))
    ensures Eval(Opt(key, check), get, cons) == Run([], None)
  {
  }

  /** On an absent value OptDef hands its default to the consumer exactly
      once and returns what the consumer returns. The checker plays no part:
      any other checker, including one that rejects the default, gives the
      same run. */
  lemma DefaultNeverChecked(key: string, check: Checker, deflt: string, get: Getter, cons: Consumer)
    requires get(key) == ""
    ensures Eval(OptDef(key, check, deflt), get, cons).trace == [(key, deflt)]
    ensures Eval(OptDef(key, check, deflt), get, cons).err.None? <==> cons(key, deflt).None?
    ensures cons(key, deflt).Some? ==>
              Eval(OptDef(key, check, deflt), get, cons).err == Some(ConsumerErr(cons(key, deflt).value))
    ensures forall other: Checker ::
              Eval(OptDef(key, other, deflt), get, cons) == Eval(OptDef(key, check, deflt), get, cons)
  {
  }

  // ------------------------------------------------------------------ Cond

  /** Cond in terms of the other validators. With the field present it is
      Req on the field followed by `yes` (or Req alone when `yes` is absent);
      with the field absent it is `no` (or nothing at all when `no` is
      absent). The branch not taken is never consulted. */
  lemma CondChoosesBranch(key: string, check: Checker, yes: Option<Validator>, no: Option<Validator>,
                          get: Getter, cons: Consumer)
    ensures |get(key)| > 0 && yes.Some? ==>
              Eval(Cond(key, check, yes, no), get, cons) == Eval(Pack([Req(key, check), yes.value]), get, cons)
    ensures |get(key)| > 0 && yes.None? ==>
              Eval(Cond(key, check, yes, no), get, cons) == Eval(Req(key, check), get, cons)
    ensures get(key) == "" && no.Some? ==>
              Eval(Cond(key, check, yes, no), get, cons) == Eval(no.value, get, cons)
    ensures get(key) == "" && no.None? ==>
              Eval(Cond(key, check, yes, no), get, cons) == Run([], None)
  {
    if |get(key)| > 0 && yes.Some? {
      var vs := [Req(key, check), yes.value];
      var head := DoCheck(key, get(key), check, cons);
      var r := Eval(yes.value, get, cons);
      assert Eval(Req(key, check), get, cons) == head;
      assert Eval(Cond(key, check, yes, no), get, cons) == Then(head, r);
      assert vs[1..] == [yes.value] && [yes.value][1..] == [];
      assert r.trace + [] == r.trace;
      assert EvalAll([yes.value], get, cons) == r;
      assert EvalAll(vs, get, cons) == Then(head, r);
    }
  }

  /** Why Cond refuses two absent branches: such a Cond is just Opt. */
  lemma VacuousCondIsOpt(key: string, check: Checker, get: Getter, cons: Consumer)
    ensures Eval(Cond(key, check, None, None), get, cons) == Eval(Opt(key, check), get, cons)
  {
  }

  // ------------------------------------------------------------------ Pack

  /** The concatenation of every validator's own trace, as if none stopped the others. */
  function Traces(vs: seq<Validator>, get: Getter, cons: Consumer): seq<Pair>
    decreases |vs|
  {
    if |vs| == 0 then [] else Eval(vs[0], get, cons).trace + Traces(vs[1..], get, cons)
  }

  /** Why Pack refuses an empty list: it would accept every input and emit nothing. */
  lemma EmptyPackIsNoOp(get: Getter, cons: Consumer)
    ensures Eval(Pack([]), get, cons) == Run([], None)
  {
  }

  /** A Pack succeeds exactly when every one of its validators succeeds, and
      then its trace is their traces in list order. */
  lemma {:induction false} PackSucceedsIffAllSucceed(vs: seq<Validator>, get: Getter, cons: Consumer)
    ensures Eval(Pack(vs), get, cons).err.None? <==>
              forall j :: 0 <= j < |vs| ==> Eval(vs[j], get, cons).err.None?
    ensures Eval(Pack(vs), get, cons).err.None? ==>
              Eval(Pack(vs), get, cons).trace == Traces(vs, get, cons)
    decreases |vs|
  {
    if |vs| > 0 {
      PackSucceedsIffAllSucceed(vs[1..], get, cons);
      assert forall j :: 1 <= j < |vs| ==> vs[1..][j - 1] == vs[j];
    }
  }

  /** The first validator that fails ends the Pack: its error comes back
      unchanged, the trace holds the calls up to and including it, and the
      validators after it are never run, so dropping them changes nothing. */
  lemma {:induction false} PackStopsAtFirstError(vs: seq<Validator>, i: nat, get: Getter, cons: Consumer)
    requires i < |vs|
    requires forall j :: 0 <= j < i ==> Eval(vs[j], get, cons).err.None?
    requires Eval(vs[i], get, cons).err.Some?
    ensures Eval(Pack(vs), get, cons) == Run(Traces(vs[..i + 1], get, cons), Eval(vs[i], get, cons).err)
    ensures Eval(Pack(vs), get, cons) == Eval(Pack(vs[..i + 1]), get, cons)
    decreases i
  {
    if i == 0 {
      var r := Eval(vs[0], get, cons);
      assert vs[..1][1..] == [];
      assert Traces(vs[..1], get, cons) == r.trace + [];
    } else {
      assert forall j :: 0 <= j < i - 1 ==> vs[1..][j] == vs[j + 1];
      PackStopsAtFirstError(vs[1..], i - 1, get, cons);
      assert vs[1..][..i] == vs[..i + 1][1..];
      assert vs[..i + 1][0] == vs[0];
    }
  }

  lemma ThenAssociative(a: Run, b: Run, c: Run)
    ensures Then(Then(a, b), c) == Then(a, Then(b, c))
  {
    if a.err.None? && b.err.None? {
      assert (a.trace + b.trace) + c.trace == a.trace + (b.trace + c.trace);
    }
  }

  /** Packing two lists one after the other is running the first Pack and,
      if it succeeds, the second. */
  lemma {:induction false} PackConcat(a: seq<Validator>, b: seq<Validator>, get: Getter, cons: Consumer)
    ensures Eval(Pack(a + b), get, cons) == Then(Eval(Pack(a), get, cons), Eval(Pack(b), get, cons))
    decreases |a|
  {
    if |a| == 0 {
      assert a + b == b;
      var rb := Eval(Pack(b), get, cons);
      assert [] + rb.trace == rb.trace;
    } else {
      assert (a + b)[0] == a[0];
      assert (a + b)[1..] == a[1..] + b;
      PackConcat(a[1..], b, get, cons);
      ThenAssociative(Eval(a[0], get, cons), Eval(Pack(a[1..]), get, cons), Eval(Pack(b), get, cons));
    }
  }

  /** Nesting Packs does not change evaluation. */
  lemma PackFlatten(a: seq<Validator>, b: seq<Validator>, get: Getter, cons: Consumer)
    ensures Eval(Pack([Pack(a), Pack(b)]), get, cons) == Eval(Pack(a + b), get, cons)
  {
    PackConcat(a, b, get, cons);
    var ra := Eval(Pack(a), get, cons);
    var rb := Eval(Pack(b), get, cons);
    assert [Pack(a), Pack(b)][1..] == [Pack(b)];
    assert [Pack(b)][1..] == [];
    assert rb.trace + [] == rb.trace;
    assert EvalAll([Pack(b)], get, cons) == rb;
    assert EvalAll([Pack(a), Pack(b)], get, cons) == Then(ra, rb);
  }

  // ------------------------------------------------------------------ keys

  /** Every key a validator may read or emit. */
  function Keys(v: Validator): set<string>
    decreases v
  {
    match v
    case Req(key, _) => {key}
    case Opt(key, _) => {key}
    case OptDef(key, _, _) => {key}
    case Cond(key, _, yes, no) =>
      {key} + (if yes.Some? then Keys(yes.value) else {}) + (if no.Some? then Keys(no.value) else {})
    case Pack(vs) => KeysAll(vs)
  }

  function KeysAll(vs: seq<Validator>): set<string>
    decreases vs
  {
    if |vs| == 0 then {} else Keys(vs[0]) + KeysAll(vs[1..])
  }

  ghost predicate AgreeOn(keys: set<string>, g1: Getter, g2: Getter) {
    forall k :: k in keys ==> g1(k) == g2(k)
  }

  /** A validator reads only its own keys: two getters that agree on them
      give the same run, so evaluating twice against equal sources gives
      equal results. */
  lemma {:induction false} EvalReadsOnlyItsKeys(v: Validator, g1: Getter, g2: Getter, cons: Consumer)
    requires AgreeOn(Keys(v), g1, g2)
    ensures Eval(v, g1, cons) == Eval(v, g2, cons)
    decreases v
  {
    match v
    case Req(key, _) =>
    case Opt(key, _) =>
    case OptDef(key, _, _) =>
    case Cond(key, _, yes, no) =>
      if yes.Some? {
        EvalReadsOnlyItsKeys(yes.value, g1, g2, cons);
      }
      if no.Some? {
        EvalReadsOnlyItsKeys(no.value, g1, g2, cons);
      }
    case Pack(vs) =>
      EvalAllReadsOnlyItsKeys(vs, g1, g2, cons);
  }

  lemma {:induction false} EvalAllReadsOnlyItsKeys(vs: seq<Validator>, g1: Getter, g2: Getter, cons: Consumer)
    requires AgreeOn(KeysAll(vs), g1, g2)
    ensures EvalAll(vs, g1, cons) == EvalAll(vs, g2, cons)
    decreases vs
  {
    if |vs| > 0 {
      EvalReadsOnlyItsKeys(vs[0], g1, g2, cons);
      EvalAllReadsOnlyItsKeys(vs[1..], g1, g2, cons);
    }
  }

  /** Every pair a validator hands to the consumer is under one of its own keys. */
  lemma {:induction false} EmitsOnlyItsKeys(v: Validator, get: Getter, cons: Consumer)
    ensures forall p :: p in Eval(v, get, cons).trace ==> p.0 in Keys(v)
    decreases v
  {
    match v
    case Req(key, _) =>
    case Opt(key, _) =>
    case OptDef(key, _, _) =>
    case Cond(key, _, yes, no) =>
      if yes.Some? {
        EmitsOnlyItsKeys(yes.value, get, cons);
      }
      if no.Some? {
        EmitsOnlyItsKeys(no.value, get, cons);
      }
    case Pack(vs) =>
      EvalAllEmitsOnlyItsKeys(vs, get, cons);
  }

  lemma {:induction false} EvalAllEmitsOnlyItsKeys(vs: seq<Validator>, get: Getter, cons: Consumer)
    ensures forall p :: p in EvalAll(vs, get, cons).trace ==> p.0 in KeysAll(vs)
    decreases vs
  {
    if |vs| > 0 {
      EmitsOnlyItsKeys(vs[0], get, cons);
      EvalAllEmitsOnlyItsKeys(vs[1..], get, cons);
    }
  }

  /** A key that FromMap's map holds with an empty value reads exactly like
      a key the map does not hold. */
  lemma FromMapEmptyValueIsAbsent(v: Validator, m: map<string, string>, key: string, cons: Consumer)
    ensures Eval(v, FromMap(m[key := ""]), cons) == Eval(v, FromMap(m - {key}), cons)
  {
    var g1 := FromMap(m[key := ""]);
    var g2 := FromMap(m - {key});
    assert forall k :: g1(k) == g2(k);
    EvalReadsOnlyItsKeys(v, g1, g2, cons);
  }

  // ------------------------------------------------------------- consumers

  /** Every call in the trace was accepted by the consumer. */
  ghost predicate AllAccepted(trace: seq<Pair>, cons: Consumer) {
    forall i :: 0 <= i < |trace| ==> cons(trace[i].0, trace[i].1).None?
  }

  /** How a run uses its consumer: when the run ends with the consumer's
      error, the last call is the one that failed, with that very message,
      and every earlier call succeeded; otherwise every call succeeded. */
  ghost predicate ConsumerProtocol(r: Run, cons: Consumer) {
    if r.err.Some? && r.err.value.ConsumerErr? then
      && |r.trace| > 0
      && AllAccepted(r.trace[..|r.trace| - 1], cons)
      && cons(r.trace[|r.trace| - 1].0, r.trace[|r.trace| - 1].1) == Some(r.err.value.message)
    else
      AllAccepted(r.trace, cons)
  }

  lemma ThenKeepsProtocol(first: Run, next: Run, cons: Consumer)
    requires ConsumerProtocol(first, cons)
    requires ConsumerProtocol(next, cons)
    ensures ConsumerProtocol(Then(first, next), cons)
  {
    if first.err.None? {
      var t := first.trace + next.trace;
      assert forall i :: 0 <= i < |first.trace| ==> t[i] == first.trace[i];
      assert forall i :: |first.trace| <= i < |t| ==> t[i] == next.trace[i - |first.trace|];
    }
  }

  lemma {:induction false} EvalFollowsProtocol(v: Validator, get: Getter, cons: Consumer)
    ensures ConsumerProtocol(Eval(v, get, cons), cons)
    decreases v
  {
    match v
    case Req(key, _) =>
    case Opt(key, _) =>
    case OptDef(key, _, _) =>
    case Cond(key, check, yes, no) =>
      if |get(key)| > 0 {
        var r := DoCheck(key, get(key), check, cons);
        if r.err.None? && yes.Some? {
          EvalFollowsProtocol(yes.value, get, cons);
          ThenKeepsProtocol(r, Eval(yes.value, get, cons), cons);
        }
      } else if no.Some? {
        EvalFollowsProtocol(no.value, get, cons);
      }
    case Pack(vs) =>
      EvalAllFollowsProtocol(vs, get, cons);
  }

  lemma {:induction false} EvalAllFollowsProtocol(vs: seq<Validator>, get: Getter, cons: Consumer)
    ensures ConsumerProtocol(EvalAll(vs, get, cons), cons)
    decreases vs
  {
    if |vs| > 0 {
      EvalFollowsProtocol(vs[0], get, cons);
      EvalAllFollowsProtocol(vs[1..], get, cons);
      ThenKeepsProtocol(Eval(vs[0], get, cons), EvalAll(vs[1..], get, cons), cons);
    }
  }

  ghost predicate NeverFails(cons: Consumer) {
    forall k, x :: cons(k, x).None?
  }

  /** With a consumer that never fails, the only errors are validation errors. */
  lemma NoConsumerErrorFromQuietConsumer(v: Validator, get: Getter, cons: Consumer)
    requires NeverFails(cons)
    ensures Eval(v, get, cons).err.Some? ==> !Eval(v, get, cons).err.value.ConsumerErr?
  {
    EvalFollowsProtocol(v, get, cons);
  }

  /** `r` is `s`, or `s` cut short by a consumer failure. */
  predicate CutOf(r: Run, s: Run) {
    r == s || (r.err.Some? && r.err.value.ConsumerErr? && r.trace <= s.trace)
  }

  lemma ThenKeepsCut(r1: Run, r2: Run, s1: Run, s2: Run)
    requires CutOf(r1, s1) && CutOf(r2, s2)
    ensures CutOf(Then(r1, r2), Then(s1, s2))
  {
    if r1 == s1 && s1.err.None? && r2 != s2 {
      assert s1.trace + r2.trace <= s1.trace + s2.trace;
    } else if r1 != s1 {
      assert s1.trace <= Then(s1, s2).trace;
    }
  }

  /** A consumer can only cut a run short: against any consumer, the run is
      the one a never-failing consumer sees, or a prefix of its trace ending
      in the consumer's own error. Validation errors and the order of calls
      do not depend on the consumer. */
  lemma {:induction false} ConsumerCanOnlyCut(v: Validator, get: Getter, cons: Consumer, quiet: Consumer)
    requires NeverFails(quiet)
    ensures CutOf(Eval(v, get, cons), Eval(v, get, quiet))
    decreases v
  {
    match v
    case Req(key, _) =>
    case Opt(key, _) =>
    case OptDef(key, _, _) =>
    case Cond(key, check, yes, no) =>
      if |get(key)| > 0 {
        var r := DoCheck(key, get(key), check, cons);
        var s := DoCheck(key, get(key), check, quiet);
        assert CutOf(r, s);
        if yes.Some? {
          var ry := Eval(yes.value, get, cons);
          var sy := Eval(yes.value, get, quiet);
          ConsumerCanOnlyCut(yes.value, get, cons, quiet);
          ThenKeepsCut(r, ry, s, sy);
          assert Eval(v, get, cons) == Then(r, ry);
          assert Eval(v, get, quiet) == Then(s, sy);
        }
      } else if no.Some? {
        ConsumerCanOnlyCut(no.value, get, cons, quiet);
      }
    case Pack(vs) =>
      EvalAllCanOnlyBeCut(vs, get, cons, quiet);
  }

  lemma {:induction false} EvalAllCanOnlyBeCut(vs: seq<Validator>, get: Getter, cons: Consumer, quiet: Consumer)
    requires NeverFails(quiet)
    ensures CutOf(EvalAll(vs, get, cons), EvalAll(vs, get, quiet))
    decreases vs
  {
    if |vs| > 0 {
      ConsumerCanOnlyCut(vs[0], get, cons, quiet);
      EvalAllCanOnlyBeCut(vs[1..], get, cons, quiet);
      ThenKeepsCut(Eval(vs[0], get, cons), EvalAll(vs[1..], get, cons),
                   Eval(vs[0], get, quiet), EvalAll(vs[1..], get, quiet));
    }
  }

  /** Two consumers that never fail see the same run. */
  lemma QuietConsumersAgree(v: Validator, get: Getter, c1: Consumer, c2: Consumer)
    requires NeverFails(c1) && NeverFails(c2)
    ensures Eval(v, get, c1) == Eval(v, get, c2)
  {
    ConsumerCanOnlyCut(v, get, c1, c2);
    NoConsumerErrorFromQuietConsumer(v, get, c1);
  }
}
