/**
  * Translation of a Python distribution's metadata into a conda `info/index.json` record
  * (conda_pupae/dist_repodata.py).
  *
  * Pipeline: parse every requirement string, drop the requirements whose environment
  * marker is false, rename the rest into the conda namespace, cut the marker off each
  * serialised requirement, normalise it with conda's MatchSpec (keeping the text when
  * MatchSpec rejects it), put the `python` constraint in front, and assemble the record.
  */
module DistRepodata {
  import opened Wrappers
  import opened Foreign

  // ---------------------------------------------------------------------------
  // Name mapping: pypi_to_conda_name
  // ---------------------------------------------------------------------------

  /** One entry of the grayskull mapping table, keyed by PyPI name. */
  datatype MappingEntry = MappingEntry(
    pypiName: string,
    condaName: string,
    importName: Option<string>,
    mappingSource: Option<string>)

  /** The mapping table, loaded once and never changed; the empty map when it is missing. */
  type MappingTable = map<string, MappingEntry>

  /** The conda name of a PyPI name: the table entry's conda name, or the name itself. */
  function PypiToCondaName(table: MappingTable, name: string): (condaName: string)
    ensures name !in table ==> condaName == name
    ensures name in table ==> condaName == table[name].condaName
  {
    var entry := if name in table then table[name] else MappingEntry(name, name, None, None);
    entry.condaName
  }

  /** Mapping a name a second time changes nothing exactly when the first result is
      not a key of the table, or is a key that maps to itself. */
  lemma PypiToCondaNameIdempotent(table: MappingTable, name: string)
    ensures var once := PypiToCondaName(table, name);
      PypiToCondaName(table, once) == once <==> (once !in table || table[once].condaName == once)
  {
  }

  // ---------------------------------------------------------------------------
  // Requirement translation: requires_to_conda
  // ---------------------------------------------------------------------------

  /** The error `Requirement(dep)` raises on a malformed requirement string. */
  datatype ParseError = InvalidRequirement(requirement: string)

  /** `[Requirement(dep) for dep in deps]`: parses every string, and fails with the first
      malformed one, so a single malformed string fails the whole list. */
  function ParseAll(parse: string -> Option<Requirement>, deps: seq<string>)
    : (parsed: Result<seq<Requirement>, ParseError>)
    ensures parsed.Success? <==> forall i :: 0 <= i < |deps| ==> parse(deps[i]).Some?
    ensures parsed.Success? ==>
      && |parsed.value| == |deps|
      && forall i :: 0 <= i < |deps| ==> parse(deps[i]) == Some(parsed.value[i])
    ensures parsed.Failure? ==>
      exists i :: 0 <= i < |deps| && parse(deps[i]).None?
        && parsed.error == InvalidRequirement(deps[i])
        && forall j :: 0 <= j < i ==> parse(deps[j]).Some?
  {
    if deps == [] then Success([])
    else match parse(deps[0])
      case None => Failure(InvalidRequirement(deps[0]))
      case Some(requirement) =>
        match ParseAll(parse, deps[1..])
        case Failure(e) =>
          ghost var i :| 0 <= i < |deps[1..]| && parse(deps[1..][i]).None?
            && e == InvalidRequirement(deps[1..][i])
            && forall j :: 0 <= j < i ==> parse(deps[1..][j]).Some?;
          assert parse(deps[i + 1]).None? && forall j :: 0 <= j < i + 1 ==> parse(deps[j]).Some?;
          Failure(e)
        case Success(rest) => Success([requirement] + rest)
  }

  /** True when the requirement carries a marker that is false in the running environment. */
  predicate Excluded(f: Collaborators, requirement: Requirement) {
    requirement.marker.Some? && !f.evaluate(requirement.marker.value)
  }

  /** The requirement with its name canonicalised and mapped into the conda namespace. */
  function Renamed(f: Collaborators, table: MappingTable, requirement: Requirement): Requirement {
    requirement.(name := PypiToCondaName(table, f.canonicalize(requirement.name)))
  }

  /** The requirements the generator yields from already parsed ones, in order. */
  function Translated(f: Collaborators, table: MappingTable, requirements: seq<Requirement>)
    : (translated: seq<Requirement>)
    ensures |translated| <= |requirements|
  {
    if requirements == [] then []
    else
      var earlier := Translated(f, table, requirements[..|requirements| - 1]);
      var last := requirements[|requirements| - 1];
      if Excluded(f, last) then earlier else earlier + [Renamed(f, table, last)]
  }

  /** What `requires_to_conda(requires)` produces once its generator is drained. */
  function TranslateRequires(f: Collaborators, table: MappingTable, requiresDist: Option<seq<string>>)
    : (result: Result<seq<Requirement>, ParseError>)
    ensures requiresDist.None? || requiresDist == Some([]) ==> result == Success([])
    ensures requiresDist.Some? ==>
      (result.Failure? <==> exists i :: 0 <= i < |requiresDist.value| && f.parse(requiresDist.value[i]).None?)
  {
    match ParseAll(f.parse, requiresDist.GetOr([]))
    case Failure(e) => Failure(e)
    case Success(requirements) => Success(Translated(f, table, requirements))
  }

  /** The generator `requires_to_conda`, drained into a sequence. */
  method RequiresToConda(f: Collaborators, table: MappingTable, requiresDist: Option<seq<string>>)
    returns (result: Result<seq<Requirement>, ParseError>)
    ensures result == TranslateRequires(f, table, requiresDist)
  {
    var parsed := ParseAll(f.parse, requiresDist.GetOr([]));
    if parsed.Failure? {
      return Failure(parsed.error);
    }
    var requirements := parsed.value;
    var yielded: seq<Requirement> := [];
    for i := 0 to |requirements|
      invariant yielded == Translated(f, table, requirements[..i])
    {
      assert requirements[..i + 1][..i] == requirements[..i];
      var requirement := requirements[i];
      if requirement.marker.Some? && !f.evaluate(requirement.marker.value) {
        // excluded by its environment marker
        continue;
      }
      var name := f.canonicalize(requirement.name);
      requirement := requirement.(name := PypiToCondaName(table, name));
      yielded := yielded + [requirement];
    }
    assert requirements[..|requirements|] == requirements;
    return Success(yielded);
  }

  /** Translation distributes over concatenation: nothing is reordered across a split. */
  lemma {:induction false} TranslatedAppend(
    f: Collaborators, table: MappingTable, front: seq<Requirement>, back: seq<Requirement>)
    ensures Translated(f, table, front + back)
         == Translated(f, table, front) + Translated(f, table, back)
  {
    if back == [] {
      assert front + back == front;
    } else {
      var init := back[..|back| - 1];
      TranslatedAppend(f, table, front, init);
      assert (front + back)[..|front + back| - 1] == front + init;
      assert (front + back)[|front + back| - 1] == back[|back| - 1];
    }
  }

  /** A requirement whose marker is false disappears without moving anything else;
      any other requirement is yielded renamed, in its place. */
  lemma TranslatedDropsExactlyExcluded(
    f: Collaborators, table: MappingTable,
    before: seq<Requirement>, requirement: Requirement, after: seq<Requirement>)
    ensures Excluded(f, requirement) ==>
      Translated(f, table, before + [requirement] + after)
        == Translated(f, table, before) + Translated(f, table, after)
    ensures !Excluded(f, requirement) ==>
      Translated(f, table, before + [requirement] + after)
        == Translated(f, table, before) + [Renamed(f, table, requirement)] + Translated(f, table, after)
  {
    TranslatedAppend(f, table, before + [requirement], after);
    TranslatedAppend(f, table, before, [requirement]);
    assert [requirement][..0] == [];
  }

  /** When no marker is false, every requirement is yielded, in the same position, with
      its name replaced by the mapped canonical name and every other part unchanged. */
  lemma {:induction false} TranslatedAllKept(
    f: Collaborators, table: MappingTable, requirements: seq<Requirement>)
    requires forall i :: 0 <= i < |requirements| ==> !Excluded(f, requirements[i])
    ensures var translated := Translated(f, table, requirements);
      && |translated| == |requirements|
      && forall i :: 0 <= i < |requirements| ==>
        && translated[i].name == PypiToCondaName(table, f.canonicalize(requirements[i].name))
        && translated[i].(name := requirements[i].name) == requirements[i]
  {
    if requirements != [] {
      TranslatedAllKept(f, table, requirements[..|requirements| - 1]);
    }
  }

  // ---------------------------------------------------------------------------
  // Record assembly: CondaMetadata.from_distribution
  // ---------------------------------------------------------------------------

  /** Index of the last occurrence of `c` in `s`, if any. */
  function LastIndexOf(s: string, c: char): (index: Option<nat>)
    ensures index.None? <==> c !in s
    ensures index.Some? ==> index.value < |s| && s[index.value] == c && c !in s[index.value + 1..]
  {
    if s == [] then None
    else if s[|s| - 1] == c then Some(|s| - 1)
    else
      assert s == s[..|s| - 1] + [s[|s| - 1]];
      var index := LastIndexOf(s[..|s| - 1], c);
      assert index.Some? ==> s[index.value + 1..] == s[..|s| - 1][index.value + 1..] + [s[|s| - 1]];
      index
  }

  /** `serialised.rsplit(";", 1)[0]`: everything before the last `;`, or the whole text. */
  function ActiveRequirement(serialised: string): (active: string)
    ensures active <= serialised
    ensures ';' !in serialised ==> active == serialised
    ensures ';' in serialised ==>
      |active| < |serialised| && serialised[|active|] == ';' && ';' !in serialised[|active| + 1..]
  {
    match LastIndexOf(serialised, ';')
    case None => serialised
    case Some(i) => serialised[..i]
  }

  /** A serialised requirement ending in `; <marker>`, with no `;` in the marker text,
      loses exactly that suffix. */
  lemma ActiveRequirementStripsMarker(base: string, marker: string)
    requires ';' !in marker
    ensures ActiveRequirement(base + "; " + marker) == base
  {
    var serialised := base + "; " + marker;
    assert serialised[|base|] == ';';
    assert serialised[|base| + 1..] == " " + marker;
    var active := ActiveRequirement(serialised);
    assert forall k :: |active| < k < |serialised| ==> serialised[k] in serialised[|active| + 1..];
    assert forall k :: |base| < k < |serialised| ==> serialised[k] in serialised[|base| + 1..];
  }

  /** `normalized` is what the MatchSpec step makes of `active`: the canonical spec, or
      `active` verbatim when MatchSpec rejects it. */
  predicate IsNormalized(f: Collaborators, active: string, normalized: string) {
    match f.matchSpec(active)
    case Some(spec) => normalized == spec
    case None => normalized == active
  }

  /** The loop that normalises each active requirement; a rejected one is kept as it is. */
  method NormalizeRequirements(f: Collaborators, activeRequirements: seq<string>)
    returns (normalized: seq<string>)
    ensures |normalized| == |activeRequirements|
    ensures forall i :: 0 <= i < |activeRequirements| ==>
      IsNormalized(f, activeRequirements[i], normalized[i])
  {
    normalized := [];
    for i := 0 to |activeRequirements|
      invariant |normalized| == i
      invariant forall j :: 0 <= j < i ==> IsNormalized(f, activeRequirements[j], normalized[j])
    {
      var requirement := activeRequirements[i];
      match f.matchSpec(requirement)
      case Some(spec) =>
        normalized := normalized + [spec];
      case None =>
        // InvalidMatchSpec: a warning is logged and the text is kept
        normalized := normalized + [requirement];
    }
  }

  /** The first dependency: bare `python`, or `python <requires-python>` when that is set. */
  function PythonConstraint(requiresPython: Option<string>): (constraint: string)
    ensures constraint == "python" <==> requiresPython.None? || requiresPython.value == ""
    ensures constraint != "python" ==> constraint == "python " + requiresPython.value
  {
    if requiresPython.Some? && requiresPython.value != "" then "python " + requiresPython.value
    else "python"
  }

  /** A declared entry point. */
  datatype EntryPoint = EntryPoint(name: string, value: string, group: string)

  /** `f"{ep.name} = {ep.value}"`: one console-script line. */
  function FormatEntryPoint(entryPoint: EntryPoint): string {
    entryPoint.name + " = " + entryPoint.value
  }

  /** The `console_scripts` comprehension: the console entry points, formatted, in order. */
  function ConsoleScripts(entryPoints: seq<EntryPoint>): (scripts: seq<string>)
    ensures |scripts| <= |entryPoints|
  {
    if entryPoints == [] then []
    else
      var earlier := ConsoleScripts(entryPoints[..|entryPoints| - 1]);
      var last := entryPoints[|entryPoints| - 1];
      if last.group == "console_scripts" then earlier + [FormatEntryPoint(last)] else earlier
  }

  /** Console scripts of a concatenation are those of each part, in the same order. */
  lemma {:induction false} ConsoleScriptsAppend(front: seq<EntryPoint>, back: seq<EntryPoint>)
    ensures ConsoleScripts(front + back) == ConsoleScripts(front) + ConsoleScripts(back)
  {
    if back == [] {
      assert front + back == front;
    } else {
      var init := back[..|back| - 1];
      ConsoleScriptsAppend(front, init);
      assert (front + back)[..|front + back| - 1] == front + init;
      assert (front + back)[|front + back| - 1] == back[|back| - 1];
    }
  }

  /** A line is a console script exactly when some entry point of group `console_scripts`
      formats to it. */
  lemma {:induction false} ConsoleScriptsMembership(entryPoints: seq<EntryPoint>, script: string)
    ensures script in ConsoleScripts(entryPoints) <==>
      exists i :: 0 <= i < |entryPoints| && entryPoints[i].group == "console_scripts"
        && script == FormatEntryPoint(entryPoints[i])
  {
    if entryPoints != [] {
      var init := entryPoints[..|entryPoints| - 1];
      ConsoleScriptsMembership(init, script);
      assert forall i :: 0 <= i < |init| ==> init[i] == entryPoints[i];
    }
  }

  /** The metadata fields the translation reads. */
  datatype Metadata = Metadata(
    requiresPython: Option<string>,
    summary: Option<string>,
    license: Option<string>,
    licenseFile: Option<string>)

  /** The distribution as `importlib.metadata` presents it. */
  datatype Distribution = Distribution(
    name: string,
    version: string,
    metadata: Metadata,
    requiresDist: Option<seq<string>>,
    entryPoints: seq<EntryPoint>)

  /** What goes in info/index.json. */
  datatype PackageRecord = PackageRecord(
    buildNumber: string,
    build: string,
    depends: seq<string>,
    licenseFamily: string,
    license: string,
    name: string,
    noarch: string,
    subdir: string,
    timestamp: int,
    version: string)

  datatype About = About(summary: Option<string>, license: Option<string>, licenseFile: Option<string>)

  datatype CondaMetadata = CondaMetadata(
    metadata: Metadata,
    consoleScripts: seq<string>,
    packageRecord: PackageRecord,
    about: About)

  /** `time_ns // 1000000`: a nanosecond clock reading in whole milliseconds, rounded down. */
  function Milliseconds(timeNs: nat): (ms: nat)
    ensures ms * 1000000 <= timeNs < ms * 1000000 + 1000000
  {
    timeNs / 1000000
  }

  /** `CondaMetadata.from_distribution`; the clock reading `time.time_ns()` is `timeNs`. */
  method FromDistribution(f: Collaborators, table: MappingTable, distribution: Distribution, timeNs: nat)
    returns (result: Result<CondaMetadata, ParseError>)
    ensures result.Failure? <==> TranslateRequires(f, table, distribution.requiresDist).Failure?
    ensures result.Failure? ==> result.error == TranslateRequires(f, table, distribution.requiresDist).error
    ensures result.Success? ==>
      var kept := TranslateRequires(f, table, distribution.requiresDist).value;
      var depends := result.value.packageRecord.depends;
      && |depends| == 1 + |kept|
      && depends[0] == PythonConstraint(distribution.metadata.requiresPython)
      && forall i :: 0 <= i < |kept| ==>
        IsNormalized(f, ActiveRequirement(f.render(kept[i])), depends[i + 1])
    ensures distribution.requiresDist.None? || distribution.requiresDist == Some([]) ==>
      result.Success? && result.value.packageRecord.depends == [PythonConstraint(distribution.metadata.requiresPython)]
    ensures result.Success? ==>
      var record := result.value.packageRecord;
      && record.build == "0" && record.buildNumber == "0" && record.licenseFamily == ""
      && record.subdir == "noarch" && record.noarch == "python"
      && record.name == PypiToCondaName(table, distribution.name)
      && record.version == distribution.version
      && record.license == distribution.metadata.license.GetOr("")
      && record.timestamp == Milliseconds(timeNs)
    ensures result.Success? ==>
      && result.value.consoleScripts == ConsoleScripts(distribution.entryPoints)
      && result.value.metadata == distribution.metadata
      && result.value.about == About(distribution.metadata.summary, distribution.metadata.license,
                                     distribution.metadata.licenseFile)
  {
    var metadata := distribution.metadata;
    var requiresPython := PythonConstraint(metadata.requiresPython);

    var translated := RequiresToConda(f, table, distribution.requiresDist);
    if translated.Failure? {
      return Failure(translated.error);
    }
    var requirements := translated.value;
    var activeRequirements := seq(|requirements|, i requires 0 <= i < |requirements| =>
      ActiveRequirement(f.render(requirements[i])));
    var normalizedRequirements := NormalizeRequirements(f, activeRequirements);
    var depends := [requiresPython] + normalizedRequirements;
    assert |depends| == 1 + |requirements| && depends[0] == requiresPython;
    assert forall i :: 0 <= i < |requirements| ==> depends[i + 1] == normalizedRequirements[i];
    assert requirements == [] ==> depends == [requiresPython];

    var consoleScripts := ConsoleScripts(distribution.entryPoints);
    var about := About(metadata.summary, metadata.license, metadata.licenseFile);
    var name := PypiToCondaName(table, distribution.name);

    var packageRecord := PackageRecord(
      buildNumber := "0",
      build := "0",
      depends := depends,
      licenseFamily := "",
      license := about.license.GetOr(""),
      name := name,
      noarch := "python",
      subdir := "noarch",
      timestamp := Milliseconds(timeNs),
      version := distribution.version);
    return Success(CondaMetadata(metadata, consoleScripts, packageRecord, about));
  }

  // ---------------------------------------------------------------------------
  // Serialisation: PackageRecord.to_index_json
  // ---------------------------------------------------------------------------

  /** The JSON values that occur in an index record. */
  datatype JsonValue = JsonString(text: string) | JsonStrings(items: seq<string>) | JsonInt(number: int)

  const IndexJsonKeys: set<string> := {
    "build_number", "build", "depends", "license_family", "license",
    "name", "noarch", "subdir", "timestamp", "version"
  }

  /** The index.json object: exactly the ten record keys, each holding its field. */
  function ToIndexJson(record: PackageRecord): (json: map<string, JsonValue>)
    ensures json.Keys == IndexJsonKeys
    ensures json["build_number"] == JsonString(record.buildNumber)
    ensures json["build"] == JsonString(record.build)
    ensures json["depends"] == JsonStrings(record.depends)
    ensures json["license_family"] == JsonString(record.licenseFamily)
    ensures json["license"] == JsonString(record.license)
    ensures json["name"] == JsonString(record.name)
    ensures json["noarch"] == JsonString(record.noarch)
    ensures json["subdir"] == JsonString(record.subdir)
    ensures json["timestamp"] == JsonInt(record.timestamp)
    ensures json["version"] == JsonString(record.version)
  {
    map[
      "build_number" := JsonString(record.buildNumber),
      "build" := JsonString(record.build),
      "depends" := JsonStrings(record.depends),
      "license_family" := JsonString(record.licenseFamily),
      "license" := JsonString(record.license),
      "name" := JsonString(record.name),
      "noarch" := JsonString(record.noarch),
      "subdir" := JsonString(record.subdir),
      "timestamp" := JsonInt(record.timestamp),
      "version" := JsonString(record.version)
    ]
  }

  /** The projection loses nothing: two records with the same index.json are the same record
      (a corollary of the ten per-key ensures of `ToIndexJson`). */
  lemma ToIndexJsonInjective(record: PackageRecord, other: PackageRecord)
    ensures ToIndexJson(record) == ToIndexJson(other) ==> record == other
  {
  }
}
