/** The records that flow between the mapper, the analyzers and the optimiser.
    In the program they are JSON-like dictionaries; here each kind of record is a
    datatype whose fields are the keys the core reads or writes. A key that may be
    missing (or hold None) is an `Option`; a list the mapper fills in place is a
    `seq` that the mapper's methods reassign. */
module Attack {
  import opened Common

  /** A STIX relationship ("uses", "mitigates", ...) from `source_ref` to `target_ref`. */
  datatype Relationship = Relationship(
    id: string,
    relationshipType: Option<string>,
    sourceRef: Option<string>,
    targetRef: Option<string>,
    mitigationId: Option<string>)    // added by the mitigation mapping

  /** An intrusion set as loaded: `id`, `name`, optional `aliases` and `description`. */
  datatype Group = Group(id: string, name: string, aliases: Option<seq<string>>, description: Option<string>)

  /** A course of action as loaded: STIX `id` and ATT&CK `mitigation_id` ("M1040"). */
  datatype Mitigation = Mitigation(id: string, mitigationId: string)

  /** The group reference the mapper attaches to a technique. */
  datatype GroupRef = GroupRef(id: string, name: string, groupId: string, aliases: seq<string>, description: string)

  /** A D3FEND citation: a record with a `url`, or a bare value such as a string. */
  datatype Reference = Cited(url: string, title: string) | Plain(text: string)

  /** One D3FEND countermeasure attached to a technique; `references` and
      `authors` are the keys the optimiser interns. */
  datatype D3fendEntry = D3fendEntry(labelText: string, references: Option<seq<Reference>>, authors: Option<seq<string>>)

  /** Per-technique statistics: count-dimension key to count. */
  type Stats = map<string, nat>

  /** An ATT&CK technique record. `id` is the STIX id the relationships point at;
      `techniqueId` is the ATT&CK id ("T1055") the heat maps are keyed by. */
  datatype Technique = Technique(
    id: Option<string>,
    techniqueId: Option<string>,
    name: string,
    description: Option<string>,
    groups: seq<GroupRef>,
    mitigations: seq<Relationship>,
    relatedRelationships: seq<Relationship>,
    externalReferences: seq<string>,
    d3fend: Option<seq<D3fendEntry>>,
    allReferences: Option<seq<string>>,
    stats: Option<Stats>)

  /** `technique['stats'].get(key, 0)`. */
  function CountOf(t: Technique, key: string): nat {
    if t.stats.Some? && key in t.stats.value then t.stats.value[key] else 0
  }

  /** The stats key a count dimension is read from: f'{count_type}_count'. */
  function CountKey(countType: string): string {
    countType + "_count"
  }

  /** `rel.get('relationship_type') == 'mitigates'`. */
  predicate Mitigates(r: Relationship) {
    r.relationshipType == Some("mitigates")
  }

  /** `rel.get('relationship_type') != 'mitigates'`. */
  predicate NotMitigates(r: Relationship) {
    r.relationshipType != Some("mitigates")
  }

  /** `technique.get("technique_id")` is truthy. */
  predicate HasTechniqueId(t: Technique) {
    Truthy(t.techniqueId)
  }
}
