/**
  * The library code that the metadata translation calls but does not define.
  *
  * Each foreign routine is a field of `Collaborators`, a value handed to the translation,
  * so that the model says nothing about how the routines work, only how their results
  * are used:
  *  - `parse`        : `packaging.requirements.Requirement(text)`, the PEP 508 parser;
  *                     `None` stands for the `InvalidRequirement` it raises on malformed text;
  *  - `evaluate`     : `Marker.evaluate()` against the running interpreter's environment;
  *  - `canonicalize` : `packaging.utils.canonicalize_name` (PEP 503 name normalisation);
  *  - `render`       : `str(requirement)`, the PEP 508 serialisation of a parsed requirement;
  *  - `matchSpec`    : `MatchSpec(text).spec` from conda; `None` stands for the
  *                     `InvalidMatchSpec` it raises on text it cannot parse.
  */
module Foreign {
  import opened Wrappers

  /** An environment marker, kept as its expression text. */
  type Marker = string

  /** A parsed PEP 508 requirement: `name[extras] specifier @ url ; marker`. */
  datatype Requirement = Requirement(
    name: string,
    extras: set<string>,
    specifier: string,
    url: Option<string>,
    marker: Option<Marker>)

  /** The foreign routines the translation depends on. */
  datatype Collaborators = Collaborators(
    parse: string -> Option<Requirement>,
    evaluate: Marker -> bool,
    canonicalize: string -> string,
    render: Requirement -> string,
    matchSpec: string -> Option<string>)
}
