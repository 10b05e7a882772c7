# conda-pupae: Python distribution metadata to conda `index.json`, modelled in Dafny

conda-pupae turns the metadata of a Python distribution into the record that conda
keeps in `info/index.json`. It does the following:

- parses every declared requirement (`Requires-Dist`) with the PEP 508 parser;
- drops the requirements whose environment marker is false in the running interpreter;
- renames the rest into the conda namespace. It canonicalises the name (PEP 503) and
  looks it up in the grayskull PyPI-to-conda mapping table;
- cuts the marker suffix off each serialised requirement at its last `;`;
- normalises each requirement with conda's `MatchSpec`, keeping the text verbatim when
  `MatchSpec` rejects it;
- puts the `python` constraint first;
- assembles a `PackageRecord` with fixed build fields, the license and the mapped
  package name.

The project has four files:

- `wrappers.dfy`: module `Wrappers`, with `Option` and `Result`.
- `foreign.dfy`: module `Foreign`. It holds the parsed `Requirement` and the
  `Collaborators` record, which carries the library routines the translation calls
  but does not define: the PEP 508 parser (partial, `None` for `InvalidRequirement`),
  marker evaluation, `canonicalize_name`, `str(Requirement)` and `MatchSpec(...).spec`
  (`None` for `InvalidMatchSpec`). They are parameters of the model and nothing is
  assumed about them.
- `dist_repodata.dfy`: module `DistRepodata`, which models
  `conda_pupae/dist_repodata.py`:
  - name mapping;
  - requirement translation, as a method with a loop proved against the function
    `TranslateRequires`;
  - marker stripping;
  - the normalisation loop;
  - console scripts;
  - record assembly (`FromDistribution`);
  - the `to_index_json` projection.
- `scenarios.dfy`: client methods that pass concrete distributions to
  `FromDistribution` and assert what its contract gives for each one. They cover a
  marker-excluded requirement with a mapped package name, a requirement `MatchSpec`
  rejects, console entry points, and a malformed requirement.

The mapping table is a `map<string, MappingEntry>` passed in explicitly; the empty map
stands for a missing table. The wall clock is the parameter `timeNs` (the reading of
`time.time_ns()`). Dafny's `/` agrees with Python's `//` here, because the divisor is
positive.

Three facts about the code that the model keeps:

- The distribution's own name is looked up in the table without canonicalisation
  (line 125). Requirement names are canonicalised first (line 168).
- `about.license` stays `None` when the metadata has no license. Only
  `PackageRecord.license` falls back to `""` (lines 120, 132).
- Normalisation happens in `from_distribution` (lines 95-105), not inside the
  requirement generator.

## Model

| member | source | states |
|---|---|---|
| `DistRepodata.PypiToCondaName` | conda_pupae/dist_repodata.py:173-182 | a name that is not a key of the table comes back unchanged; a key comes back as its entry's conda name |
| `DistRepodata.PypiToCondaNameIdempotent` | conda_pupae/dist_repodata.py:173-182 | mapping twice equals mapping once exactly when the first result is not a key, or is a key that maps to itself |
| `DistRepodata.ParseAll` | conda_pupae/dist_repodata.py:163 | every string is parsed up front. The list succeeds iff every string parses, and then holds each parse in order. Otherwise it fails with the first malformed string, and all strings before that one parse |
| `DistRepodata.TranslateRequires` | conda_pupae/dist_repodata.py:162-170 | a `None` or empty requirements list yields nothing. A declared list fails iff at least one string is malformed, whatever the markers say |
| `DistRepodata.RequiresToConda` | conda_pupae/dist_repodata.py:162-170 | the generator loop (skip false markers, rename, yield) produces exactly `TranslateRequires` |
| `DistRepodata.Translated` | conda_pupae/dist_repodata.py:164-170 | the parsed requirements in order, minus those whose marker is present and false, each kept one renamed; at most one output per input. The content is fixed by `TranslatedDropsExactlyExcluded` |
| `DistRepodata.TranslatedAppend` | conda_pupae/dist_repodata.py:162-170 | translating a concatenation is the concatenation of the translations: no reordering or merging across any split, so no deduplication |
| `DistRepodata.TranslatedDropsExactlyExcluded` | conda_pupae/dist_repodata.py:164-170 | a requirement whose marker is present and false disappears without shifting the others; any other requirement appears renamed in its own place |
| `DistRepodata.TranslatedAllKept` | conda_pupae/dist_repodata.py:168-170 | with no false marker, every requirement is yielded at its own position. Its name becomes the mapped canonical name and every other part is unchanged |
| `DistRepodata.LastIndexOf` | conda_pupae/dist_repodata.py:92 | the position `rsplit` cuts at: none exactly when the character does not occur; otherwise a position holding it with no occurrence after it |
| `DistRepodata.ActiveRequirement` | conda_pupae/dist_repodata.py:92 | the active string is a prefix of the serialisation. It is the whole string when there is no `;`; otherwise it is followed by a `;` and no `;` comes after that one |
| `DistRepodata.ActiveRequirementStripsMarker` | conda_pupae/dist_repodata.py:92 | a serialisation ending in `; <marker>` whose marker holds no `;` loses exactly that suffix |
| `DistRepodata.NormalizeRequirements` | conda_pupae/dist_repodata.py:95-105 | same length and order. Each entry is MatchSpec's spec, or the active string verbatim when MatchSpec rejects it, and rejection never aborts |
| `DistRepodata.PythonConstraint` | conda_pupae/dist_repodata.py:86-89 | bare `python` exactly when requires-python is missing or empty, otherwise `python <requires-python>` |
| `DistRepodata.ConsoleScripts` | conda_pupae/dist_repodata.py:110-114 | the entry points of group `console_scripts`, formatted `name = value`, in declaration order; at most one line per entry point. The content is fixed by `ConsoleScriptsAppend` and `ConsoleScriptsMembership` |
| `DistRepodata.ConsoleScriptsAppend` | conda_pupae/dist_repodata.py:110-114 | console scripts keep declaration order: those of a concatenation are those of each part, in turn |
| `DistRepodata.ConsoleScriptsMembership` | conda_pupae/dist_repodata.py:110-114 | a line is a console script iff some entry point of group `console_scripts` formats to it as `name = value` |
| `DistRepodata.FromDistribution` | conda_pupae/dist_repodata.py:83-146 | fails iff requirement parsing fails, with the same error. Otherwise: `depends[0]` is the python constraint, `depends` has one entry more than the kept requirements, and entry i+1 is the normalisation of requirement i's marker-stripped serialisation. With no requirements, `depends` is just the python constraint. Build `"0"`, build number `"0"`, empty license family, subdir `noarch`, noarch `python`. Mapped name, verbatim version, license or `""`, timestamp = floor of time_ns / 10^6. Console scripts and `about` as in the metadata |
| `DistRepodata.Milliseconds` | conda_pupae/dist_repodata.py:138 | the timestamp is the clock reading in whole milliseconds, rounded down: `ms * 10^6 <= time_ns < (ms + 1) * 10^6` |
| `DistRepodata.ToIndexJson` | conda_pupae/dist_repodata.py:60-72 | the index object has exactly the ten record keys, and each key holds the record field of the same name |
| `DistRepodata.ToIndexJsonInjective` | conda_pupae/dist_repodata.py:60-72 | every field is carried into the index object: two records with the same object are equal |

## Left out

- `FileDistribution` (lines 23-43) reads files through `importlib.metadata`. It is I/O, and the distribution is an input value here.
- Loading the mapping table with `pkgutil.get_data` and `json.loads` (lines 157-159) is resource I/O. The table is a parameter; a missing table is the empty map. A table entry without `conda_name` (a `KeyError` in the source) cannot be expressed.
- The `__main__` directory walk and printing (lines 185-188) are command-line I/O.
- `log.warning` for a rejected MatchSpec (line 104) has no observable effect on the result.
- The clock (line 138) is the input `timeNs`.
- The foreign routines have no internals in the model. These are the PEP 508 parser and `str(Requirement)`, marker evaluation in the ambient interpreter, `canonicalize_name` and `MatchSpec`. Exceptions from `MatchSpec` other than `InvalidMatchSpec` (which would propagate) are not modelled.
- `RequiresToConda`: `Marker.evaluate()` (line 164) is taken to always return a truth value. The `UndefinedComparison` and `UndefinedEnvironmentName` exceptions it can raise are not caught by the source, so they would abort `requires_to_conda` and `from_distribution`; the model does not represent that failure path.
- The normaliser's idempotence (`normalize(normalize(s)) == normalize(s)`) is a property of conda's `MatchSpec`, which is not part of this model.
- `RequiresToConda`: the source assigns the new name to the parsed `Requirement` object in place. The model yields an updated copy instead. The objects are freshly parsed and referenced by nothing else, so the difference cannot be observed.
- `RequiresToConda`: the source is a lazy generator. The model returns the drained sequence, which is how `from_distribution` consumes it (line 91).
- `ToIndexJson`: the Python dict also has an insertion order of its keys. The model's `map` does not keep that order.
- `Metadata` holds only the four fields the translation reads. `metadata["requires-python"]` and `metadata.get(...)` on a missing field are modelled as `None`; whether a given Python version raises `KeyError` there instead is not modelled.
