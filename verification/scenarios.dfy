/**
 The repository's test scenarios, each evaluated on concrete inputs.
 The two regular expressions the scenarios use are given by a small matcher
 written for exactly those two patterns.
 */
module Scenarios {
  import opened Wrappers
  import opened Checkers
  import opened Validators
  import opened Materialize

  function AllBetween(s: string, lo: char, hi: char): bool {
    |s| == 0 || (lo <= s[0] <= hi && AllBetween(s[1..], lo, hi))
  }

  /** MatchString for `^[a-z]{3}$` and `^[A-Z]{3}$`; every other pattern matches nothing. */
  function ThreeLetters(patt: string, val: string): bool {
    if patt == "^[a-z]{3}$" then |val| == 3 && AllBetween(val, 'a', 'z')
    else if patt == "^[A-Z]{3}$" then |val| == 3 && AllBetween(val, 'A', 'Z')
    else false
  }

  // ------------------------------------------------------------ TestSimple

  function SimpleFields(): seq<Validator> {
    [
      Opt("aaa", OneOf(["xxx", "yyy", "zzz"])),
      Req("bbb", Regex("^[a-z]{3}$", ThreeLetters)),
      Req("ccc", OneOf(["xxx", "yyy"])),
      OptDef("AAA", Regex("^[A-Z]{3}$", ThreeLetters), "XXX"),
      Req("isOK", Bool)
    ]
  }

  function SimpleValidator(): Validator {
    Pack(SimpleFields())
  }

  const SimpleSource: map<string, string> :=
    map["aaa" := "zzz", "bbb" := "yyy", "ccc" := "xxx", "isOK" := "1"]

  const SimpleExpected: map<string, string> :=
    map["aaa" := "zzz", "bbb" := "yyy", "ccc" := "xxx", "AAA" := "XXX", "isOK" := "true"]

  const SimpleTrace: seq<Pair> :=
    [("aaa", "zzz"), ("bbb", "yyy"), ("ccc", "xxx"), ("AAA", "XXX"), ("isOK", "true")]

  lemma SimpleFieldRuns()
    ensures Eval(SimpleFields()[0], FromMap(SimpleSource), Record) == Run([("aaa", "zzz")], None)
    ensures Eval(SimpleFields()[1], FromMap(SimpleSource), Record) == Run([("bbb", "yyy")], None)
    ensures Eval(SimpleFields()[2], FromMap(SimpleSource), Record) == Run([("ccc", "xxx")], None)
    ensures Eval(SimpleFields()[3], FromMap(SimpleSource), Record) == Run([("AAA", "XXX")], None)
    ensures Eval(SimpleFields()[4], FromMap(SimpleSource), Record) == Run([("isOK", "true")], None)
  {
    var get := FromMap(SimpleSource);
    assert get("aaa") == "zzz" && get("bbb") == "yyy" && get("ccc") == "xxx";
    assert get("AAA") == "" && get("isOK") == "1";
    assert AllBetween("yyy", 'a', 'z');
  }

  lemma SimpleCollect()
    ensures Collect(SimpleTrace) == SimpleExpected
  {
    var t := SimpleTrace;
    assert t[..1][..0] == [];
    assert Collect(t[..1]) == map["aaa" := "zzz"];
    assert t[..2][..1] == t[..1];
    assert Collect(t[..2]) == map["aaa" := "zzz", "bbb" := "yyy"];
    assert t[..3][..2] == t[..2];
    assert Collect(t[..3]) == map["aaa" := "zzz", "bbb" := "yyy", "ccc" := "xxx"];
    assert t[..4][..3] == t[..3];
    assert Collect(t[..4]) == map["aaa" := "zzz", "bbb" := "yyy", "ccc" := "xxx", "AAA" := "XXX"];
    assert t[..4] == t[..|t| - 1];
  }

  /** One step of Pack's loop over a list whose head succeeds. */
  lemma PackStep(vs: seq<Validator>, get: Getter, cons: Consumer, head: Run, rest: Run)
    requires |vs| > 0
    requires Eval(vs[0], get, cons) == head && head.err.None?
    requires EvalAll(vs[1..], get, cons) == rest
    ensures EvalAll(vs, get, cons) == Run(head.trace + rest.trace, rest.err)
  {
  }

  /** The last three fields of the five-field Pack. */
  lemma SimpleRunTail()
    ensures EvalAll(SimpleFields()[2..], FromMap(SimpleSource), Record) == Run(SimpleTrace[2..], None)
  {
    var get := FromMap(SimpleSource);
    var vs := SimpleFields();
    var t := SimpleTrace;
    SimpleFieldRuns();
    assert vs[5..] == [];
    assert vs[4..][1..] == vs[5..];
    PackStep(vs[4..], get, Record, Run([t[4]], None), Done);
    assert [t[4]] + [] == t[4..];
    assert vs[3..][1..] == vs[4..];
    PackStep(vs[3..], get, Record, Run([t[3]], None), Run(t[4..], None));
    assert [t[3]] + t[4..] == t[3..];
    assert vs[2..][1..] == vs[3..];
    PackStep(vs[2..], get, Record, Run([t[2]], None), Run(t[3..], None));
    assert [t[2]] + t[3..] == t[2..];
  }

  lemma SimpleRun()
    ensures Eval(SimpleValidator(), FromMap(SimpleSource), Record) == Run(SimpleTrace, None)
  {
    var get := FromMap(SimpleSource);
    var vs := SimpleFields();
    var t := SimpleTrace;
    SimpleFieldRuns();
    SimpleRunTail();
    assert vs[1..][1..] == vs[2..];
    PackStep(vs[1..], get, Record, Run([t[1]], None), Run(t[2..], None));
    assert [t[1]] + t[2..] == t[1..];
    PackStep(vs, get, Record, Run([t[0]], None), Run(t[1..], None));
    assert [t[0]] + t[1..] == t;
  }

  lemma SimpleWellFormed()
    ensures WellFormed(SimpleValidator())
  {
    var vs := SimpleFields();
    assert vs[1..][1..][1..][1..][1..] == [];
  }

  /** The five-field Pack against its source yields exactly the expected map. */
  lemma SimpleScenario()
    ensures Map(SimpleValidator(), FromMap(SimpleSource)) == Success(SimpleExpected)
  {
    SimpleRun();
    SimpleCollect();
  }

  // ------------------------------------------------------------ TestErrors

  /** The getter of the error scenarios: the value "XXX" under three keys and
      "xxx" under "missing"; the key "ddd" is absent. */
  const ErrorSource: map<string, string> :=
    map["aaa" := "XXX", "bbb" := "XXX", "isOK" := "XXX", "missing" := "xxx"]

  lemma ErrorScenarioOneOf()
    ensures Map(Req("aaa", OneOf(["xxx", "yyy", "zzz"])), FromMap(ErrorSource))
              == Failure(Invalid("aaa", NotAccepted("XXX")))
  {
    assert FromMap(ErrorSource)("aaa") == "XXX";
  }

  lemma ErrorScenarioRegex()
    ensures Map(Req("bbb", Regex("^[a-z]{3}$", ThreeLetters)), FromMap(ErrorSource))
              == Failure(Invalid("bbb", NotAccepted("XXX")))
  {
    assert FromMap(ErrorSource)("bbb") == "XXX";
    assert !AllBetween("XXX", 'a', 'z');
  }

  lemma ErrorScenarioBool()
    ensures Map(Req("isOK", Bool), FromMap(ErrorSource)) == Failure(Invalid("isOK", InvalidSyntax("XXX")))
  {
    assert FromMap(ErrorSource)("isOK") == "XXX";
  }

  lemma ErrorScenarioMissing()
    ensures Map(Req("ddd", Bool), FromMap(ErrorSource)) == Failure(Missing("ddd"))
  {
    assert FromMap(ErrorSource)("ddd") == "";
  }

  // -------------------------------------------------------------- TestCond

  function CondValidator(yes: Option<Validator>, no: Option<Validator>): Validator {
    Pack([Cond("aaa", Bool, yes, no)])
  }

  const PresentSource: map<string, string> := map["aaa" := "1", "bbb" := "0"]
  const AbsentSource: map<string, string> := map["ccc" := "0"]

  lemma CondScenarioYes(no: Option<Validator>)
    ensures Eval(CondValidator(Some(Req("bbb", Bool)), no), FromMap(PresentSource), Record)
              == Run([("aaa", "true"), ("bbb", "false")], None)
  {
    var get := FromMap(PresentSource);
    assert get("aaa") == "1" && get("bbb") == "0";
    var c := Cond("aaa", Bool, Some(Req("bbb", Bool)), no);
    assert Bool("1") == Success("true") && Bool("0") == Success("false");
    var head := DoCheck("aaa", "1", Bool, Record);
    assert head == Run([("aaa", "true")], None);
    var tail := Eval(Req("bbb", Bool), get, Record);
    assert tail == Run([("bbb", "false")], None);
    assert Eval(c, get, Record) == Then(head, tail);
    assert [("aaa", "true")] + [("bbb", "false")] == [("aaa", "true"), ("bbb", "false")];
    assert [c][1..] == [];
    assert EvalAll([c], get, Record) == Then(Eval(c, get, Record), Done);
  }

  lemma CondScenarioNo(yes: Option<Validator>)
    ensures Eval(CondValidator(yes, Some(Req("ccc", Bool))), FromMap(AbsentSource), Record)
              == Run([("ccc", "false")], None)
  {
    var get := FromMap(AbsentSource);
    assert get("aaa") == "" && get("ccc") == "0";
    var c := Cond("aaa", Bool, yes, Some(Req("ccc", Bool)));
    assert Bool("0") == Success("false");
    assert Eval(Req("ccc", Bool), get, Record) == Run([("ccc", "false")], None);
    assert Eval(c, get, Record) == Run([("ccc", "false")], None);
    assert [c][1..] == [];
    assert EvalAll([c], get, Record) == Then(Eval(c, get, Record), Done);
  }

  /** The four conditional scenarios: both branches given, then each branch alone. */
  lemma CondScenarios()
    ensures Eval(CondValidator(Some(Req("bbb", Bool)), Some(Req("ccc", Bool))), FromMap(PresentSource), Record)
              == Run([("aaa", "true"), ("bbb", "false")], None)
    ensures Eval(CondValidator(Some(Req("bbb", Bool)), Some(Req("ccc", Bool))), FromMap(AbsentSource), Record)
              == Run([("ccc", "false")], None)
    ensures Eval(CondValidator(Some(Req("bbb", Bool)), None), FromMap(PresentSource), Record)
              == Run([("aaa", "true"), ("bbb", "false")], None)
    ensures Eval(CondValidator(None, Some(Req("ccc", Bool))), FromMap(AbsentSource), Record)
              == Run([("ccc", "false")], None)
  {
    CondScenarioYes(Some(Req("ccc", Bool)));
    CondScenarioNo(Some(Req("bbb", Bool)));
    CondScenarioYes(None);
    CondScenarioNo(None);
  }
}
