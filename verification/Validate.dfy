/**
 The validator (backend/internal/bundle/validate.go): eight rules over the bytes of the files,
 each with the property it decides.
 */
module Validation {
  import opened Text
  import F = Frontmatter
  import L = LinkScan
  import opened Reports
  import opened Bundles

  type Files = map<string, string>

  /** The files by name; of two with one name the later one counts. */
  function FileMap(files: seq<File>): Files {
    if files == [] then map[] else FileMap(files[..|files| - 1])[files[|files| - 1].name := files[|files| - 1].content]
  }

  predicate Blank(s: string) {
    TrimSpace(s) == ""
  }

  // ---------------------------------------------------------------------------
  // The rules
  // ---------------------------------------------------------------------------

  ghost predicate MinimumStructure(files: Files) {
    && INDEX_FILE in files && !Blank(files[INDEX_FILE])
    && LOG_FILE in files && !Blank(files[LOG_FILE])
    && exists name :: name in files && !Reserved(name)
  }

  ghost predicate IndexLinksResolve(files: Files) {
    INDEX_FILE in files && forall target :: target in L.RelativeLinks(files[INDEX_FILE]) ==> target in files
  }

  ghost predicate EveryConceptIsIndexed(files: Files) {
    && INDEX_FILE in files
    && forall name :: name in files && !Reserved(name) ==> name in L.RelativeLinks(files[INDEX_FILE])
  }

  ghost predicate LinksResolve(files: Files, name: string)
    requires name in files
  {
    forall target :: target in L.RelativeLinks(files[name]) ==> target in files
  }

  ghost predicate ConceptLinksResolve(files: Files) {
    forall name :: name in files && name != INDEX_FILE ==> LinksResolve(files, name)
  }

  predicate HasFrontmatter(content: string) {
    F.Parsed(content).Some?
  }

  predicate HasType(content: string) {
    HasFrontmatter(content) && !Blank(F.Field(F.Parsed(content).value, "type"))
  }

  predicate HasField(content: string, field: string) {
    HasFrontmatter(content) ==> !Blank(F.Field(F.Parsed(content).value, field))
  }

  const STANDARD_FIELDS := ["title", "description", "tags", "timestamp"]

  predicate HasStandardFields(content: string) {
    forall k :: 0 <= k < |STANDARD_FIELDS| ==> HasField(content, STANDARD_FIELDS[k])
  }

  predicate HasRole(files: Files, name: string, kind: string) {
    name in files && HasFrontmatter(files[name]) ==>
      F.UnquoteYAML(F.Field(F.Parsed(files[name]).value, "type")) == kind
  }

  ghost predicate FrontmatterPresent(files: Files) {
    forall name :: name in files ==> HasFrontmatter(files[name])
  }

  ghost predicate TypeFieldPresent(files: Files) {
    forall name :: name in files ==> HasType(files[name])
  }

  ghost predicate StandardFieldsPresent(files: Files) {
    forall name :: name in files ==> HasStandardFields(files[name])
  }

  ghost predicate ReservedTypesMatch(files: Files) {
    HasRole(files, INDEX_FILE, "index") && HasRole(files, LOG_FILE, "log")
  }

  /** Every check says what its rule costs, and passed exactly when nothing broke it. */
  predicate Outcome(c: Check, id: string, scope: Scope, severity: Severity) {
    c.id == id && c.scope == scope && c.severity == severity && (c.passed <==> c.details == [])
  }

  // ---------------------------------------------------------------------------
  // The checks. The order of the details, which the source takes from sorting or from map
  // iteration, is left open.
  // ---------------------------------------------------------------------------

  method MinimumStructureCheck(files: Files) returns (c: Check)
    ensures Outcome(c, "minimum-structure", Platform, Error) && (c.passed <==> MinimumStructure(files))
  {
    var details := [];
    var reserved := [INDEX_FILE, LOG_FILE];
    for i := 0 to 2
      invariant details == [] <==> forall k :: 0 <= k < i ==> reserved[k] in files && !Blank(files[reserved[k]])
    {
      if reserved[i] !in files || Blank(files[reserved[i]]) { details := details + [reserved[i]]; }
    }
    assert details == [] <==> reserved[0] in files && !Blank(files[reserved[0]]) && reserved[1] in files && !Blank(files[reserved[1]]);
    var concepts := set name | name in files && !Reserved(name);
    assert concepts == {} <==> !exists name :: name in files && !Reserved(name) by {
      if concepts == {} {
        forall name | name in files ensures Reserved(name) {
          assert name !in concepts;
        }
      }
    }
    if |concepts| == 0 { details := details + ["no hay ningún documento de concepto"]; }
    c := Check("minimum-structure", Platform, Error, details == [], details);
  }

  /** The entries of targets that name no file. */
  method Dangling(files: Files, targets: seq<string>) returns (details: seq<string>)
    ensures forall target :: target in details <==> target in targets && target !in files
  {
    details := [];
    for i := 0 to |targets|
      invariant forall target :: target in details <==> target in targets[..i] && target !in files
    {
      if targets[i] !in files { details := details + [targets[i]]; }
    }
    assert targets[..|targets|] == targets;
  }

  method IndexLinksCheck(files: Files) returns (c: Check)
    ensures Outcome(c, "index-links", Platform, Error) && (c.passed <==> IndexLinksResolve(files))
  {
    if INDEX_FILE !in files {
      return Check("index-links", Platform, Error, false, ["no hay index.md que revisar"]);
    }
    var targets := L.ExtractRelativeLinks(files[INDEX_FILE]);
    var details := Dangling(files, targets);
    c := Check("index-links", Platform, Error, details == [], details);
    assert details != [] ==> details[0] in details;
  }

  method ConceptsIndexedCheck(files: Files) returns (c: Check)
    ensures Outcome(c, "concepts-indexed", Platform, Error) && (c.passed <==> EveryConceptIsIndexed(files))
  {
    if INDEX_FILE !in files {
      return Check("concepts-indexed", Platform, Error, false, ["no hay index.md que revisar"]);
    }
    var linked := L.ExtractRelativeLinks(files[INDEX_FILE]);
    var details := Failing(files, name => Reserved(name) || name in linked);
    c := Check("concepts-indexed", Platform, Error, details == [], details);
    NothingFails(files, name => Reserved(name) || name in linked, details);
  }

  /** The files that do not pass good. */
  method Failing(files: Files, good: string -> bool) returns (details: seq<string>)
    ensures forall name :: name in details <==> name in files && !good(name)
  {
    details := [];
    var names := files.Keys;
    while names != {}
      invariant names <= files.Keys
      invariant forall name :: name in details <==> name in files && name !in names && !good(name)
      decreases |names|
    {
      var name :| name in names;
      if !good(name) { details := details + [name]; }
      names := names - {name};
    }
  }

  lemma NothingFails(files: Files, good: string -> bool, details: seq<string>)
    requires forall name :: name in details <==> name in files && !good(name)
    ensures details == [] <==> forall name :: name in files ==> good(name)
  {
    if details != [] { assert details[0] in details; }
  }

  method ConceptLinksCheck(files: Files) returns (c: Check)
    ensures Outcome(c, "concept-links", Platform, Warning) && (c.passed <==> ConceptLinksResolve(files))
  {
    var details := [];
    var names := files.Keys - {INDEX_FILE};
    while names != {}
      invariant names <= files.Keys - {INDEX_FILE}
      invariant details == [] <==>
        forall name :: name in files && name != INDEX_FILE && name !in names ==> LinksResolve(files, name)
      decreases |names|
    {
      var name :| name in names;
      var targets := L.ExtractRelativeLinks(files[name]);
      var dangling := Dangling(files, targets);
      assert dangling == [] <==> LinksResolve(files, name) by {
        if dangling != [] { assert dangling[0] in dangling; }
      }
      details := details + dangling;
      names := names - {name};
    }
    c := Check("concept-links", Platform, Warning, details == [], details);
  }

  method FrontmatterCheck(files: Files) returns (c: Check)
    ensures Outcome(c, "okf-frontmatter", OKF, Error) && (c.passed <==> FrontmatterPresent(files))
  {
    var details := Failing(files, name => name in files && HasFrontmatter(files[name]));
    c := Check("okf-frontmatter", OKF, Error, details == [], details);
    NothingFails(files, name => name in files && HasFrontmatter(files[name]), details);
  }

  method TypeFieldCheck(files: Files) returns (c: Check)
    ensures Outcome(c, "okf-type", OKF, Error) && (c.passed <==> TypeFieldPresent(files))
  {
    var details := Failing(files, name => name in files && HasType(files[name]));
    c := Check("okf-type", OKF, Error, details == [], details);
    NothingFails(files, name => name in files && HasType(files[name]), details);
  }

  method StandardFieldsCheck(files: Files) returns (c: Check)
    ensures Outcome(c, "okf-standard-fields", OKF, Warning) && (c.passed <==> StandardFieldsPresent(files))
  {
    var details := Failing(files, name => name in files && HasStandardFields(files[name]));
    c := Check("okf-standard-fields", OKF, Warning, details == [], details);
    NothingFails(files, name => name in files && HasStandardFields(files[name]), details);
  }

  method ReservedTypesCheck(files: Files) returns (c: Check)
    ensures Outcome(c, "okf-reserved-types", OKF, Warning) && (c.passed <==> ReservedTypesMatch(files))
  {
    var details := [];
    var roles := [(INDEX_FILE, "index"), (LOG_FILE, "log")];
    for i := 0 to 2
      invariant details == [] <==> forall k :: 0 <= k < i ==> HasRole(files, roles[k].0, roles[k].1)
    {
      if !HasRole(files, roles[i].0, roles[i].1) { details := details + [roles[i].0]; }
    }
    c := Check("okf-reserved-types", OKF, Warning, details == [], details);
    assert details == [] <==> HasRole(files, roles[0].0, roles[0].1) && HasRole(files, roles[1].0, roles[1].1);
  }

  // ---------------------------------------------------------------------------
  // The verdict
  // ---------------------------------------------------------------------------

  ghost predicate PlatformSound(files: Files) {
    MinimumStructure(files) && IndexLinksResolve(files) && EveryConceptIsIndexed(files)
  }

  ghost function PlatformVerdict(files: Files): Verdict {
    Classified(!PlatformSound(files), !ConceptLinksResolve(files))
  }

  ghost function OKFVerdict(files: Files): Verdict {
    Classified(!FrontmatterPresent(files) || !TypeFieldPresent(files),
               !StandardFieldsPresent(files) || !ReservedTypesMatch(files))
  }

  /** The eight checks in their order, each passed exactly when its property holds. */
  ghost predicate Decided(checks: seq<Check>, files: Files) {
    && |checks| == 8
    && (checks[0].passed <==> MinimumStructure(files)) && (checks[1].passed <==> IndexLinksResolve(files))
    && (checks[2].passed <==> EveryConceptIsIndexed(files)) && (checks[3].passed <==> ConceptLinksResolve(files))
    && (checks[4].passed <==> FrontmatterPresent(files)) && (checks[5].passed <==> TypeFieldPresent(files))
    && (checks[6].passed <==> StandardFieldsPresent(files)) && (checks[7].passed <==> ReservedTypesMatch(files))
  }

  /** Whether the validator lets these files be published. */
  ghost predicate Publishable(files: Files) {
    PlatformVerdict(files).Publishable() && OKFVerdict(files).Publishable()
  }

  method Validate(b: Bundle) returns (r: Report)
    ensures r.platform == PlatformVerdict(FileMap(b.files))
    ensures r.okf == OKFVerdict(FileMap(b.files))
    ensures Decided(r.checks, FileMap(b.files))
    ensures r.verdict in [r.platform, r.okf]
    ensures Rank(r.verdict) >= Rank(r.platform) && Rank(r.verdict) >= Rank(r.okf)
    ensures r.verdict.Publishable() <==> Publishable(FileMap(b.files))
  {
    var files := ByName(b.files);
    r := ValidateFiles(files);
  }

  method ByName(files: seq<File>) returns (byName: Files)
    ensures byName == FileMap(files)
  {
    byName := map[];
    for i := 0 to |files|
      invariant byName == FileMap(files[..i])
    {
      assert files[..i + 1][..i] == files[..i];
      byName := byName[files[i].name := files[i].content];
    }
    assert files[..|files|] == files;
  }

  method ValidateFiles(files: Files) returns (r: Report)
    ensures r.platform == PlatformVerdict(files) && r.okf == OKFVerdict(files)
    ensures Decided(r.checks, files)
    ensures r.verdict in [r.platform, r.okf]
    ensures Rank(r.verdict) >= Rank(r.platform) && Rank(r.verdict) >= Rank(r.okf)
  {
    hide MinimumStructure, IndexLinksResolve, EveryConceptIsIndexed, ConceptLinksResolve, Failed,
      FrontmatterPresent, TypeFieldPresent, StandardFieldsPresent, ReservedTypesMatch;
    var c0 := MinimumStructureCheck(files);
    var c1 := IndexLinksCheck(files);
    var c2 := ConceptsIndexedCheck(files);
    var c3 := ConceptLinksCheck(files);
    var c4 := FrontmatterCheck(files);
    var c5 := TypeFieldCheck(files);
    var c6 := StandardFieldsCheck(files);
    var c7 := ReservedTypesCheck(files);
    var checks := [c0, c1, c2, c3, c4, c5, c6, c7];
    var platform := VerdictFor(checks, Platform);
    var okf := VerdictFor(checks, OKF);
    FailedOfEight(checks);
    var verdict := Worst([platform, okf]);
    r := Report(verdict, platform, okf, checks);
    assert platform in [platform, okf] && okf in [platform, okf];
  }

  lemma FailedOfEight(checks: seq<Check>)
    requires |checks| == 8
    requires forall k :: 0 <= k < 4 ==> checks[k].scope == Platform && checks[k].severity == if k < 3 then Error else Warning
    requires forall k :: 4 <= k < 8 ==> checks[k].scope == OKF && checks[k].severity == if k < 6 then Error else Warning
    ensures Failed(checks, Platform, Error) <==> !checks[0].passed || !checks[1].passed || !checks[2].passed
    ensures Failed(checks, Platform, Warning) <==> !checks[3].passed
    ensures Failed(checks, OKF, Error) <==> !checks[4].passed || !checks[5].passed
    ensures Failed(checks, OKF, Warning) <==> !checks[6].passed || !checks[7].passed
  {
    assert forall k :: 0 <= k < 8 ==> checks[k] in checks;
    assert checks[0] in checks && checks[1] in checks && checks[2] in checks && checks[3] in checks;
    assert checks[4] in checks && checks[5] in checks && checks[6] in checks && checks[7] in checks;
  }
}
