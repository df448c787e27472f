/**
 The rules of the validator and the order of a bundle, in terms of the files alone
 (backend/internal/bundle/validate.go:120-396, backend/internal/bundle/bundle.go:142-179,
 backend/internal/bundle/archive.go:65-81).
 */
module RuleLaws {
  import opened Wrappers
  import opened Text
  import F = Frontmatter
  import opened LinkScan
  import opened Reports
  import opened Bundles
  import opened Validation

  // ---------------------------------------------------------------------------
  // The rules
  // ---------------------------------------------------------------------------

  /** Not blank: anything but white space in it. */
  lemma BlankIs(s: string)
    ensures Blank(s) <==> forall k :: 0 <= k < |s| ==> IsSpace(s[k])
  {
    var i, j := TrimSpaceIs(s);
    if k :| 0 <= k < |s| && !IsSpace(s[k]) { TrimKeeps(s, k); }
  }

  /** The value a file declares for a key, if it opens with metadata and declares one. */
  ghost predicate Says(content: string, key: string, value: string) {
    var m := F.Parsed(content);
    m.Some? && key in m.value && m.value[key] == value
  }

  ghost predicate SaysSomething(content: string, key: string) {
    exists value :: Says(content, key, value) && TrimSpace(value) != ""
  }

  lemma StructureRule(files: Files)
    ensures MinimumStructure(files) <==>
      && "index.md" in files && TrimSpace(files["index.md"]) != "" && "log.md" in files && TrimSpace(files["log.md"]) != ""
      && exists name :: name in files && name != "index.md" && name != "log.md"
  {
    hide TrimSpace;
  }

  lemma LinkRules(files: Files)
    ensures IndexLinksResolve(files) <==>
      "index.md" in files && forall target :: target in RelativeLinks(files["index.md"]) ==> target in files
    ensures EveryConceptIsIndexed(files) <==> "index.md" in files && forall name ::
      name in files && name != "index.md" && name != "log.md" ==> name in RelativeLinks(files["index.md"])
    ensures ConceptLinksResolve(files) <==> forall name, target ::
      name in files && name != "index.md" && target in RelativeLinks(files[name]) ==> target in files
  {
    hide RelativeLinks;
    if ConceptLinksResolve(files) {
      forall name, target | name in files && name != "index.md" && target in RelativeLinks(files[name]) ensures target in files {
        assert LinksResolve(files, name);
      }
    }
  }

  lemma MetadataRules(files: Files)
    ensures FrontmatterPresent(files) <==> forall name :: name in files ==> F.Parsed(files[name]).Some?
    ensures TypeFieldPresent(files) <==> forall name :: name in files ==> SaysSomething(files[name], "type")
    ensures StandardFieldsPresent(files) <==> forall name, field ::
      name in files && F.Parsed(files[name]).Some? && field in ["title", "description", "tags", "timestamp"] ==>
        SaysSomething(files[name], field)
  {
    hide F.Parsed, TrimSpace, HasField, SaysSomething;
    forall name | name in files ensures HasType(files[name]) <==> SaysSomething(files[name], "type") {
      TypeIs(files[name]);
    }
    forall name, field | name in files
      ensures HasField(files[name], field) <==> (F.Parsed(files[name]).Some? ==> SaysSomething(files[name], field))
    {
      FieldIs(files[name], field);
    }
    forall name | name in files
      ensures HasStandardFields(files[name]) <==>
        forall field :: field in ["title", "description", "tags", "timestamp"] ==> HasField(files[name], field)
    {
      FourFields(files[name]);
    }
  }

  lemma TypeIs(content: string)
    ensures HasType(content) <==> SaysSomething(content, "type")
  {
    hide F.Parsed, TrimSpace;
    BlankEmpty();
    if HasType(content) { assert Says(content, "type", F.Parsed(content).value["type"]); }
  }

  lemma FieldIs(content: string, field: string)
    ensures HasField(content, field) <==> (F.Parsed(content).Some? ==> SaysSomething(content, field))
  {
    hide F.Parsed, TrimSpace;
    BlankEmpty();
    if F.Parsed(content).Some? && HasField(content, field) { assert Says(content, field, F.Parsed(content).value[field]); }
  }

  lemma BlankEmpty()
    ensures TrimSpace("") == ""
  {
  }

  lemma FourFields(content: string)
    ensures HasStandardFields(content) <==>
      forall field :: field in ["title", "description", "tags", "timestamp"] ==> HasField(content, field)
  {
    hide HasField;
    var fields := ["title", "description", "tags", "timestamp"];
    assert STANDARD_FIELDS == fields;
    assert forall k :: 0 <= k < 4 ==> fields[k] in fields;
  }

  /** Where index.md and log.md have metadata, they declare their roles. */
  lemma RoleRule(files: Files)
    ensures ReservedTypesMatch(files) <==>
      && ("index.md" in files && F.Parsed(files["index.md"]).Some? ==>
            F.UnquoteYAML(F.Field(F.Parsed(files["index.md"]).value, "type")) == "index")
      && ("log.md" in files && F.Parsed(files["log.md"]).Some? ==>
            F.UnquoteYAML(F.Field(F.Parsed(files["log.md"]).value, "type")) == "log")
  {
    hide F.Parsed, F.UnquoteYAML, F.Field;
  }

  /** A scope is invalid when an error rule of it fails, and otherwise has warnings when a warning rule
      does; publishing asks that neither be invalid. */
  lemma VerdictsAre(files: Files)
    ensures PlatformVerdict(files) ==
      if !(MinimumStructure(files) && IndexLinksResolve(files) && EveryConceptIsIndexed(files)) then Invalid
      else if !ConceptLinksResolve(files) then WithWarnings else Valid
    ensures OKFVerdict(files) ==
      if !(FrontmatterPresent(files) && TypeFieldPresent(files)) then Invalid
      else if !(StandardFieldsPresent(files) && ReservedTypesMatch(files)) then WithWarnings else Valid
    ensures Publishable(files) <==> PlatformVerdict(files) != Invalid && OKFVerdict(files) != Invalid
  {
  }

  // ---------------------------------------------------------------------------
  // Files
  // ---------------------------------------------------------------------------

  /** A name leads to the first file that has it. */
  lemma {:induction false} FoundIs(files: seq<File>, name: string)
    ensures Found(files, name).None? <==> forall k :: 0 <= k < |files| ==> files[k].name != name
    ensures forall k :: 0 <= k < |files| && files[k].name == name && (forall j :: 0 <= j < k ==> files[j].name != name) ==>
      Found(files, name) == Some(files[k].content)
  {
    if files != [] {
      FoundIs(files[1..], name);
      forall k | 0 < k < |files| ensures files[k] == files[1..][k - 1] {}
      forall k | 0 <= k < |files| && files[k].name == name && (forall j :: 0 <= j < k ==> files[j].name != name)
        ensures Found(files, name) == Some(files[k].content)
      {
        if k > 0 {
          forall j | 0 <= j < k - 1 ensures files[1..][j].name != name { assert files[j + 1].name != name; }
          assert files[1..][k - 1].name == name;
        }
      }
      if files[0].name != name && Found(files[1..], name).Some? {
        var k :| 0 <= k < |files[1..]| && files[1..][k].name == name;
        assert files[k + 1].name == name;
      }
    }
  }

  /** Rewriting log.md puts the content into the first file of that name, or adds one at the end. */
  lemma {:induction false} WithLogIs(files: seq<File>, content: string, k: nat)
    requires k <= |files| && forall j :: 0 <= j < k ==> files[j].name != "log.md"
    ensures k < |files| && files[k].name == "log.md" ==> WithLog(files, content) == files[k := File("log.md", content)]
    ensures k == |files| ==> WithLog(files, content) == files + [File("log.md", content)]
  {
    if k > 0 {
      forall j | 0 <= j < k - 1 ensures files[1..][j].name != "log.md" { assert files[j + 1].name != "log.md"; }
      WithLogIs(files[1..], content, k - 1);
      assert [files[0]] + files[1..] == files;
    }
  }

  /** In reading order the reserved files come first, where they are there, and the others follow in
      their own order. */
  lemma OrderedIs(files: seq<File>)
    ensures Ordered(files) ==
      (if Found(files, "index.md").Some? then [File("index.md", Found(files, "index.md").value)] else [])
      + (if Found(files, "log.md").Some? then [File("log.md", Found(files, "log.md").value)] else [])
      + Unreserved(files)
  {
    hide Found;
  }

  lemma UnreservedOne(f: File)
    ensures Unreserved([f]) == if f.name == "index.md" || f.name == "log.md" then [] else [f]
  {
    assert [f][1..] == [];
  }

  lemma {:induction false} UnreservedConcat(a: seq<File>, b: seq<File>)
    ensures Unreserved(a + b) == Unreserved(a) + Unreserved(b)
  {
    hide Reserved;
    if a == [] {
      assert a + b == b;
    } else {
      assert (a + b)[0] == a[0] && (a + b)[1..] == a[1..] + b;
      UnreservedConcat(a[1..], b);
      var first := if Reserved(a[0].name) then [] else [a[0]];
      assert first + (Unreserved(a[1..]) + Unreserved(b)) == (first + Unreserved(a[1..])) + Unreserved(b);
    }
  }
}
