/**
 The outcome of a validation (backend/internal/bundle/validate.go:23-174).
 */
module Reports {

  datatype Scope = Platform | OKF

  datatype Severity = Error | Warning

  datatype Verdict = Valid | WithWarnings | Invalid {
    predicate Publishable() { this != Invalid }
  }

  /** One rule: details names what broke it, and it passed when nothing did. */
  datatype Check = Check(id: string, scope: Scope, severity: Severity, passed: bool, details: seq<string>)

  datatype Report = Report(verdict: Verdict, platform: Verdict, okf: Verdict, checks: seq<Check>)

  predicate Failed(checks: seq<Check>, scope: Scope, severity: Severity) {
    exists c :: c in checks && c.scope == scope && c.severity == severity && !c.passed
  }

  /** What one scope is classified as: a failed error outweighs any number of warnings. */
  function Classified(errors: bool, warnings: bool): Verdict {
    if errors then Invalid else if warnings then WithWarnings else Valid
  }

  method VerdictFor(checks: seq<Check>, scope: Scope) returns (verdict: Verdict)
    ensures verdict == Classified(Failed(checks, scope, Error), Failed(checks, scope, Warning))
    ensures verdict == Invalid <==>
      exists c :: c in checks && c.scope == scope && c.severity == Error && !c.passed
    ensures verdict == Valid <==>
      forall c :: c in checks && c.scope == scope ==> c.passed
  {
    verdict := Valid;
    for i := 0 to |checks|
      invariant !Failed(checks[..i], scope, Error)
      invariant verdict == Classified(false, Failed(checks[..i], scope, Warning))
    {
      var c := checks[i];
      FailedSoFar(checks, i, scope);
      if c.scope != scope || c.passed { continue; }
      if c.severity == Error { return Invalid; }
      verdict := WithWarnings;
    }
    assert checks[..|checks|] == checks;
  }

  lemma FailedSoFar(checks: seq<Check>, i: nat, scope: Scope)
    requires i < |checks|
    ensures forall severity :: Failed(checks[..i + 1], scope, severity) <==>
      Failed(checks[..i], scope, severity)
      || (checks[i].scope == scope && checks[i].severity == severity && !checks[i].passed)
    ensures checks[i].scope == scope && !checks[i].passed ==> Failed(checks, scope, checks[i].severity)
  {
    var last := checks[i];
    assert checks[..i + 1] == checks[..i] + [last] && last in checks;
    forall severity ensures Failed(checks[..i + 1], scope, severity) <==>
      Failed(checks[..i], scope, severity) || (last.scope == scope && last.severity == severity && !last.passed)
    {
      if last.scope == scope && last.severity == severity && !last.passed { assert last in checks[..i + 1]; }
      if Failed(checks[..i], scope, severity) {
        var c :| c in checks[..i] && c.scope == scope && c.severity == severity && !c.passed;
        assert c in checks[..i + 1];
      }
    }
  }

  function Rank(v: Verdict): nat {
    match v case Valid => 0 case WithWarnings => 1 case Invalid => 2
  }

  /** The worst of several verdicts; nothing judged is nothing wrong. */
  method Worst(verdicts: seq<Verdict>) returns (result: Verdict)
    ensures forall v :: v in verdicts ==> Rank(v) <= Rank(result)
    ensures result in verdicts || result == Valid
    ensures result == if Invalid in verdicts then Invalid else if WithWarnings in verdicts then WithWarnings else Valid
  {
    result := Valid;
    for i := 0 to |verdicts|
      invariant forall v :: v in verdicts[..i] ==> Rank(v) <= Rank(result)
      invariant result in verdicts || result == Valid
    {
      if Rank(verdicts[i]) > Rank(result) { result := verdicts[i]; }
    }
  }
}
