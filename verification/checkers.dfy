/**
 Checkers: pure functions from a raw field value to either a normalised value
 or a failure. A checker does not know the name of the field it checks; the
 validator that calls it adds that context.
 */
module Checkers {
  import opened Wrappers

  /** Why a checker rejected a value; both kinds carry the offending raw value. */
  datatype CheckError =
    | NotAccepted(value: string)    // OneOf and Regex: the message is the quoted value
    | InvalidSyntax(value: string)  // Bool: the quoted value and ParseBool's "invalid syntax"

  type Checker = string -> Result<string, CheckError>

  /** A checker whose outputs are fixed points: checking an accepted,
      normalised value again accepts it and changes nothing. */
  ghost predicate Normalizing(check: Checker) {
    forall val :: check(val).Success? ==> check(check(val).value) == check(val)
  }

  // ---------------------------------------------------------------- OneOf

  /** The interning table OneOf builds: every literal maps to itself. */
  function Interned(literals: seq<string>): map<string, string> {
    map lit | lit in literals :: lit
  }

  /** Membership in a fixed list of non-empty literals. The table lookup
      yields "" for a value that is not a literal, and "" is how the checker
      tells a miss from a hit. */
  function OneOf(literals: seq<string>): (check: Checker)
    requires |literals| > 0
    requires forall i :: 0 <= i < |literals| ==> |literals[i]| > 0
    ensures forall val :: check(val).Success? <==> val in literals
    ensures forall val :: check(val).Success? ==> check(val).value == val
    ensures forall val :: check(val).Failure? ==> check(val).error == NotAccepted(val)
  {
    var table := Interned(literals);
    (val: string) =>
      var s := if val in table then table[val] else "";
      if |s| == 0 then Failure(NotAccepted(val)) else Success(s)
  }

  lemma OneOfNormalizing(literals: seq<string>)
    requires |literals| > 0
    requires forall i :: 0 <= i < |literals| ==> |literals[i]| > 0
    ensures Normalizing(OneOf(literals))
    ensures forall val :: val in literals ==> OneOf(literals)(val) == Success(val)
  {
  }

  // ----------------------------------------------------------------- Bool

  /** The spellings strconv.ParseBool reads as true and as false. */
  const TrueSpellings: set<string> := {"1", "t", "T", "TRUE", "true", "True"}
  const FalseSpellings: set<string> := {"0", "f", "F", "FALSE", "false", "False"}

  function ParseBool(s: string): (r: Result<bool, CheckError>)
    ensures r == Success(true) <==> s in TrueSpellings
    ensures r == Success(false) <==> s in FalseSpellings
    ensures r.Failure? ==> r.error == InvalidSyntax(s)
  {
    if s == "1" || s == "t" || s == "T" || s == "TRUE" || s == "true" || s == "True" then
      Success(true)
    else if s == "0" || s == "f" || s == "F" || s == "FALSE" || s == "false" || s == "False" then
      Success(false)
    else
      Failure(InvalidSyntax(s))
  }

  function FormatBool(b: bool): (s: string)
    ensures s == "true" || s == "false"
    ensures ParseBool(s) == Success(b)
  {
    if b then "true" else "false"
  }

  /** Parses with ParseBool and prints the flag back with FormatBool. */
  function Bool(val: string): (r: Result<string, CheckError>)
    ensures r.Success? <==> val in TrueSpellings + FalseSpellings
    ensures r == Success("true") <==> val in TrueSpellings
    ensures r == Success("false") <==> val in FalseSpellings
    ensures r.Failure? ==> r.error == InvalidSyntax(val)
  {
    match ParseBool(val)
    case Success(flag) => Success(FormatBool(flag))
    case Failure(e) => Failure(e)
  }

  lemma BoolNormalizing()
    ensures Normalizing(Bool)
    ensures forall val :: Bool(val).Success? ==> Bool(val).value in {"true", "false"}
  {
  }

  // ---------------------------------------------------------------- Regex

  /** Whether pattern `patt` matches a value: stands for the compiled
      regular expression's MatchString, which is not part of this model. */
  type Matcher = (string, string) -> bool

  function Regex(patt: string, matches: Matcher): (check: Checker)
    ensures forall val :: check(val).Success? <==> matches(patt, val)
    ensures forall val :: check(val).Success? ==> check(val).value == val
    ensures forall val :: check(val).Failure? ==> check(val).error == NotAccepted(val)
  {
    (val: string) => if matches(patt, val) then Success(val) else Failure(NotAccepted(val))
  }

  lemma RegexNormalizing(patt: string, matches: Matcher)
    ensures Normalizing(Regex(patt, matches))
  {
  }
}
