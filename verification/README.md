# vald in Dafny

A model of `vald`, a small Go package that validates a flat set of named
string inputs (form fields, query parameters, environment variables) with
validators built from combinators.

- A **checker** maps a raw value to a normalised value or an error. The
  package ships three of them: `OneOf` (membership in a fixed list of
  literals), `Bool` (the grammar of Go's `strconv.ParseBool`, printed back as
  `"true"` or `"false"`) and `Regex` (match against a pattern).
- A **validator** reads named fields through a *getter*, where an empty
  string means the field is absent. For each accepted field it hands
  `(key, normalised value)` to a *consumer*, which may itself fail. `Req`,
  `Opt`, `OptDef` and `Cond` each handle one field. `Pack` runs a list of
  validators in order. Evaluation stops at the first error.
- `Map` runs a validator with a consumer that stores every pair in a fresh
  map. It returns that map, or the error and no map.

## Layout

- `wrappers.dfy` (`Wrappers`): `Option` and `Result`.
- `checkers.dfy` (`Checkers`): `CheckError`, the `Checker` type, `OneOf`,
  `ParseBool`/`FormatBool`/`Bool`, `Regex`, and `Normalizing` (checking an
  accepted output again changes nothing).
- `validators.dfy` (`Validators`): the `Validator` datatype, the error
  datatype, `DoCheck` (the check-then-emit step shared by every field
  validator), `Eval`/`EvalAll`, `WellFormed` and the `FromMap` getter.
  `Eval` returns a `Run`: the ordered trace of consumer calls together with
  the error the run ended with, if any. When the error comes from the
  consumer, the failing call is the last one in the trace.
- `laws.dfy` (`ValidatorLaws`): the behaviour of each validator, Pack
  sequencing and short-circuiting, the keys a validator reads and emits, and
  what a consumer can change about a run.
- `materialize.dfy` (`Materialize`): `Map`, and `Collect` with its
  last-write-wins law.
- `scenarios.dfy` (`Scenarios`): the package's test scenarios, each
  evaluated on concrete inputs.

Modelling choices:

- The getter is a total function `string -> string`. The consumer is a pure
  function `(string, string) -> Option<string>`, where `Some(message)` is its
  failure. Checkers are total functions, as in Go, where they are
  first-class values.
- Errors form a datatype: `Missing(key)`, `Invalid(key, cause)` and
  `ConsumerErr(message)`. A checker's cause is `NotAccepted(value)` (from
  `OneOf` and `Regex`, whose message is the quoted value) or
  `InvalidSyntax(value)` (from `Bool`, whose message adds ParseBool's
  "invalid syntax").
- `OneOf`'s panics become its preconditions: a non-empty list of non-empty
  literals. The panics of `Pack` and `Cond` become the `WellFormed`
  predicate: a non-empty list, and at least one branch. No law needs
  `WellFormed`; every law holds of ill-formed values too, and
  `EmptyPackIsNoOp` and `VacuousCondIsOpt` show what the refused values would
  have meant.
- `Regex` takes the pattern and a `Matcher`. The matcher stands for the
  compiled expression's `MatchString`. The scenarios supply a matcher that
  handles just the two patterns they use.
- The tests expect the messages `parameter "aaa": invalid value: ...` and
  `missing value` (vald_test.go:77 and vald_test.go:92). The code builds
  `invalid value for key ...` and `missing key: ...` (vald.go:157 and
  vald.go:103). The model follows the code: the error scenarios state the
  error values the code produces.

## Model

| member | source | states |
|---|---|---|
| Checkers.OneOf | vald.go:165-187 | for a non-empty list of non-empty literals, the checker accepts a value exactly when it is one of the literals and then returns it unchanged; any other value fails with that value |
| Checkers.OneOfNormalizing | vald.go:177-186 | every literal is accepted as itself, and checking an accepted value again gives the same result |
| Checkers.ParseBool | vald.go:206 | exactly `1, t, T, TRUE, true, True` parse as true and exactly `0, f, F, FALSE, false, False` as false; anything else is a syntax error carrying the value |
| Checkers.FormatBool | vald.go:212 | the printed flag parses back to the same flag (round trip) |
| Checkers.Bool | vald.go:202-213 | accepts exactly the twelve ParseBool spellings, giving `"true"` exactly for the six true spellings and `"false"` exactly for the six false ones; every other value fails with a syntax error carrying it |
| Checkers.BoolNormalizing | vald.go:202-213 | every accepted output is `"true"` or `"false"`, and both are fixed points of the checker |
| Checkers.Regex | vald.go:190-200 | accepts exactly the values the pattern matches and returns them unchanged; any other value fails with that value |
| Checkers.RegexNormalizing | vald.go:193-199 | checking an accepted value again gives the same result |
| Validators.Eval | vald.go:80-153 | runs one validator: the closures built by Req, Opt, OptDef, Cond and Pack. It has no contract of its own; the ValidatorLaws rows state its behaviour |
| Validators.EvalAll | vald.go:80-88 | the loop inside Pack: each validator in list order, stopping at the first error. No contract of its own; PackSucceedsIffAllSucceed and PackStopsAtFirstError state it |
| Validators.WellFormed | vald.go:76-140 | the constructors' checks at vald.go lines 76-78 and 138-140: a Pack list is non-empty and a Cond has at least one branch, recursively. A predicate with no contract; SimpleWellFormed applies it |
| Validators.DoCheck | vald.go:155-161 | a rejected value makes no consumer call and gives a key-scoped invalid-value error with the checker's cause; an accepted value makes exactly one call, under the validator's key and with the normalised value; the consumer's error comes back unchanged |
| Validators.FromMap | vald.go:224-229 | a key in the map reads as its value and any other key reads as "" (absent) |
| ValidatorLaws.PresentFieldIsChecked | vald.go:97-131 | with the field present, Req, Opt and OptDef all run the same check-then-emit step |
| ValidatorLaws.AbsentRequiredOrOptional | vald.go:97-118 | with the field absent, Req fails with a missing-key error and Opt succeeds, and neither calls the consumer |
| ValidatorLaws.DefaultNeverChecked | vald.go:120-131 | with the field absent, OptDef calls the consumer exactly once with `(key, deflt)` and returns its result; every checker gives the same run, including one that rejects the default |
| ValidatorLaws.CondChoosesBranch | vald.go:137-153 | with the field present, Cond is Req on the field followed by `yes` (or Req alone); with it absent, Cond is `no` (or succeeds without effect) |
| ValidatorLaws.VacuousCondIsOpt | vald.go:137-140 | a Cond with neither branch, the value the constructor refuses, would just be Opt |
| ValidatorLaws.EmptyPackIsNoOp | vald.go:75-78 | a Pack of nothing, the value the constructor refuses, would accept every input and emit nothing |
| ValidatorLaws.PackSucceedsIffAllSucceed | vald.go:80-88 | a Pack succeeds exactly when every member succeeds, and its trace is then the members' traces in list order |
| ValidatorLaws.PackStopsAtFirstError | vald.go:80-88 | at the first failing member the Pack stops with that member's error unchanged; its trace holds the calls up to that member, and the later members are never run (dropping them changes nothing) |
| ValidatorLaws.PackConcat | vald.go:74-89 | a Pack over `a + b` is Pack `a` followed, only on success, by Pack `b` |
| ValidatorLaws.PackFlatten | vald.go:74-89 | nesting two Packs inside a Pack evaluates like one flat Pack |
| ValidatorLaws.EvalReadsOnlyItsKeys | vald.go:97-153 | two getters that agree on a validator's keys give the same run, so equal sources give equal runs |
| ValidatorLaws.EmitsOnlyItsKeys | vald.go:97-161 | every pair handed to the consumer is under one of the validator's own keys |
| ValidatorLaws.FromMapEmptyValueIsAbsent | vald.go:45-52 | a key mapped to "" reads exactly like a missing key |
| ValidatorLaws.EvalFollowsProtocol | vald.go:54-58 | every consumer call in a run succeeded, except for the last call of a run that ends with the consumer's error; that call failed with exactly that message |
| ValidatorLaws.NoConsumerErrorFromQuietConsumer | vald.go:155-161 | with a consumer that never fails, every error is a validation error |
| ValidatorLaws.ConsumerCanOnlyCut | vald.go:54-58 | against any consumer, a run either equals the run a never-failing consumer sees, or ends in the consumer's error with a prefix of that run's trace |
| ValidatorLaws.QuietConsumersAgree | vald.go:54-58 | two consumers that never fail see the same run |
| Materialize.Collect | vald.go:63-65 | the stored map's keys are exactly the keys in the trace |
| Materialize.CollectLastWrite | vald.go:65 | each key maps to the value of the last pair stored under it |
| Materialize.Map | vald.go:62-72 | a failure is never a consumer error, and a success holds only the validator's own keys |
| Materialize.MapFailsWithEval | vald.go:62-72 | Map fails exactly when evaluation against any never-failing consumer fails, and with the same error |
| Materialize.MapHoldsLastValues | vald.go:62-72 | on success Map holds exactly the keys that evaluation against any never-failing consumer emits, each with the last value emitted for it (last write wins) |
| Scenarios.SimpleRun | vald_test.go:27-53 | the five-field Pack emits `aaa, bbb, ccc, AAA, isOK` in that order, with their normalised values, and succeeds |
| Scenarios.SimpleScenario | vald_test.go:10-33 | Map yields `{aaa: zzz, bbb: yyy, ccc: xxx, AAA: XXX, isOK: true}` |
| Scenarios.SimpleWellFormed | vald_test.go:27-33 | the five-field Pack passes the constructors' checks |
| Scenarios.ErrorScenarioOneOf | vald_test.go:74-78 | `XXX` fails OneOf: an invalid-value error for `aaa` quoting `XXX` |
| Scenarios.ErrorScenarioRegex | vald_test.go:79-83 | `XXX` fails `^[a-z]{3}$`: an invalid-value error for `bbb` quoting `XXX` |
| Scenarios.ErrorScenarioBool | vald_test.go:84-88 | `XXX` fails Bool: an invalid-syntax error for `isOK` |
| Scenarios.ErrorScenarioMissing | vald_test.go:89-93 | an absent `ddd` gives a missing-key error for `ddd` |
| Scenarios.CondScenarios | vald_test.go:137-158 | the four conditional traces: `[(aaa,true),(bbb,false)]`, `[(ccc,false)]`, `[(aaa,true),(bbb,false)]`, `[(ccc,false)]` |

## Left out

- The regular-expression engine (`regexp.MustCompile`) and its panic on a bad pattern: a `Matcher` parameter stands in for it.
- Exact error text and `strconv.Quote` escaping: errors are a datatype that carries the key and the offending value.
- `mapNumErr` unwrapping `*strconv.NumError`: this only affects how the error is presented. Its result is modelled as `InvalidSyntax(value)`.
- Real getters such as HTTP form readers and `os.Getenv`: any total function stands in for them. `FromMap` is the one concrete getter.
- Stateful consumers, like the counting consumers of the tests: consumers are pure functions, and the trace records their calls. The conditional scenarios use `Record`, which never fails.
- A nil validator inside a `Pack` list, which panics in Go when it is called: a list of the datatype cannot hold one.
- Panics: the constructor checks are `OneOf`'s preconditions and the `WellFormed` predicate.
- Thread safety and reuse of validators: the model has no state to share.
- Aliasing of `Pack`'s argument slice: Go's Pack keeps the caller's slice, so writing into that slice later changes a validator already built. The model's list is an immutable value.
