/**
  * Client code: concrete distributions passed to `FromDistribution`, with what its
  * contract lets a caller conclude about each of them.
  */
module Scenarios {
  import opened Wrappers
  import opened Foreign
  import opened DistRepodata

  const FooRequirement := Requirement("foo", {}, ">=1.0", None, Some("python_version >= \"3.9\""))

  /** Foreign routines as a Python 3.8 interpreter would behave on the strings used here. */
  function Python38(): Collaborators {
    Collaborators(
      parse := (text: string) =>
        if text == "foo>=1.0; python_version>='3.9'" then Some(FooRequirement)
        else if text == "bar~=1.0" then Some(Requirement("bar", {}, "~=1.0", None, None))
        else None,
      evaluate := (marker: Marker) => false,
      canonicalize := (name: string) => name,
      render := (requirement: Requirement) => requirement.name + requirement.specifier,
      matchSpec := (text: string) => None)
  }

  const Grayskull: MappingTable :=
    map["zope-hookable" := MappingEntry("zope-hookable", "zope.hookable", Some("zope.hookable"), Some("regro-bot"))]

  /** A requirement whose marker is false is dropped; the package name is mapped. */
  method MarkerExcludedRequirement() {
    var distribution := Distribution(
      "zope-hookable", "1.0", Metadata(Some(">=3.8"), None, None, None),
      Some(["foo>=1.0; python_version>='3.9'"]), []);
    var f := Python38();
    var declared := ["foo>=1.0; python_version>='3.9'"];
    assert f.parse(declared[0]) == Some(FooRequirement);
    assert declared[1..] == [];
    var parsed := ParseAll(f.parse, declared);
    assert parsed.Success? && |parsed.value| == 1 && parsed.value[0] == FooRequirement;
    assert parsed.value == [FooRequirement];
    assert Translated(f, Grayskull, [FooRequirement]) == [];
    var result := FromDistribution(f, Grayskull, distribution, 1700000000123456789);
    assert result.Success?;
    assert PythonConstraint(Some(">=3.8")) == "python " + ">=3.8" == "python >=3.8";
    assert result.value.packageRecord.depends == ["python >=3.8"];
    assert result.value.packageRecord.name == "zope.hookable";
    assert result.value.packageRecord.timestamp == 1700000000123;
  }

  /** A requirement MatchSpec rejects reaches `depends` verbatim instead of failing. */
  method RejectedSpecKeptVerbatim() {
    var distribution := Distribution("bar-user", "2.0", Metadata(None, None, Some("MIT"), None), Some(["bar~=1.0"]), []);
    var f := Python38();
    var bar := Requirement("bar", {}, "~=1.0", None, None);
    var declared := ["bar~=1.0"];
    assert f.parse(declared[0]) == Some(bar);
    assert declared[1..] == [];
    var parsed := ParseAll(f.parse, declared);
    assert parsed.Success? && |parsed.value| == 1 && parsed.value[0] == bar;
    assert parsed.value == [bar];
    assert Translated(f, map[], [bar]) == [bar];
    assert ActiveRequirement(f.render(bar)) == ActiveRequirement("bar" + "~=1.0") == "bar~=1.0";
    var result := FromDistribution(f, map[], distribution, 0);
    assert result.Success?;
    assert result.value.packageRecord.depends == ["python", "bar~=1.0"];
    assert result.value.packageRecord.license == "MIT";
  }

  /** Only entry points of group `console_scripts` become console scripts. */
  method ConsoleEntryPointsOnly() {
    var entryPoints := [EntryPoint("foo", "pkg:main", "console_scripts"), EntryPoint("bar", "pkg:gui", "gui_scripts")];
    var distribution := Distribution("pkg", "0.1", Metadata(None, None, None, None), None, entryPoints);
    var result := FromDistribution(Python38(), map[], distribution, 0);
    assert entryPoints[..1] == [EntryPoint("foo", "pkg:main", "console_scripts")];
    assert ConsoleScripts(entryPoints[..1]) == [FormatEntryPoint(entryPoints[0])];
    assert FormatEntryPoint(entryPoints[0]) == "foo" + " = " + "pkg:main" == "foo = pkg:main";
    assert result.value.consoleScripts == ["foo = pkg:main"];
    assert result.value.packageRecord.license == "";
  }

  /** A malformed requirement string fails the whole translation. */
  method MalformedRequirementFails() {
    var distribution := Distribution("pkg", "0.1", Metadata(None, None, None, None), Some(["bar~=1.0", "???"]), []);
    var result := FromDistribution(Python38(), map[], distribution, 0);
    assert Python38().parse("???").None?;
    assert result.Failure?;
  }
}
