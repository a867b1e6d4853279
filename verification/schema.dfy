/** The structured-output schema sent with each request, written as data:
    object nodes list their declared properties and the names they require,
    array nodes their item schema, and string nodes an optional enumeration
    (the response schema uses none). The free-text descriptions attached to
    some nodes are guidance for the model and are not kept. */
module Schema {
  import opened Types

  datatype SchemaNode =
    | ObjectNode(properties: seq<Property>, required: seq<string>)
    | ArrayNode(items: SchemaNode)
    | StringNode(enumValues: Option<seq<string>>)

  datatype Property = Property(name: string, schema: SchemaNode)

  function Names(properties: seq<Property>): (names: seq<string>)
    ensures |names| == |properties|
    ensures forall i :: 0 <= i < |properties| ==> names[i] == properties[i].name
  {
    if properties == [] then [] else [properties[0].name] + Names(properties[1..])
  }

  /** At every object level of `node`, the `required` list names exactly the
      declared properties, in declaration order. */
  predicate RequiresAllDeclared(node: SchemaNode)
    decreases node
  {
    match node
    case ObjectNode(properties, required) =>
      && required == Names(properties)
      && forall i :: 0 <= i < |properties| ==> RequiresAllDeclared(properties[i].schema)
    case ArrayNode(items) => RequiresAllDeclared(items)
    case StringNode(_) => true
  }

  /** The property of an object node called `name`, if it declares one. */
  function Lookup(properties: seq<Property>, name: string): (r: Option<SchemaNode>)
    ensures r.Some? <==> name in Names(properties)
  {
    if properties == [] then None
    else if properties[0].name == name then Some(properties[0].schema)
    else Lookup(properties[1..], name)
  }

  const Str: SchemaNode := StringNode(None)

  const StrList: SchemaNode := ArrayNode(StringNode(None))

  const PatientDetailsSchema: SchemaNode := ObjectNode(
    [ Property("name", Str),
      Property("age", Str),
      Property("testDate", Str),
      Property("testType", Str)],
    ["name", "age", "testDate", "testType"])

  const ReportItemSchema: SchemaNode := ObjectNode(
    [ Property("parameter", Str),
      Property("value", Str),
      Property("referenceRange", Str),
      Property("status", Str),
      Property("explanation", Str)],
    ["parameter", "value", "referenceRange", "status", "explanation"])

  const RecommendationsSchema: SchemaNode := ObjectNode(
    [ Property("general", StrList),
      Property("nutrition", StrList),
      Property("physicalTherapy", StrList)],
    ["general", "nutrition", "physicalTherapy"])

  /** The response schema of the analysis request. */
  const ResponseSchema: SchemaNode := ObjectNode(
    [ Property("patientDetails", PatientDetailsSchema),
      Property("patientSummary", Str),
      Property("physicianReport", ArrayNode(ReportItemSchema)),
      Property("recommendations", RecommendationsSchema)],
    ["patientDetails", "patientSummary", "physicianReport", "recommendations"])

  /** A flat object level whose properties are all strings or string lists
      requires all declared properties when its list names them. */
  lemma FlatLevelRequiresAllDeclared(node: SchemaNode)
    requires node.ObjectNode? && node.required == Names(node.properties)
    requires forall i :: 0 <= i < |node.properties| ==> node.properties[i].schema in {Str, StrList}
    ensures RequiresAllDeclared(node)
  {
    assert RequiresAllDeclared(Str);
    assert RequiresAllDeclared(StrList);
  }

  /** Every object level of the response schema requires exactly the
      properties it declares. */
  lemma ResponseSchemaRequiresAllDeclared()
    ensures RequiresAllDeclared(ResponseSchema)
  {
    FlatLevelRequiresAllDeclared(PatientDetailsSchema);
    FlatLevelRequiresAllDeclared(ReportItemSchema);
    FlatLevelRequiresAllDeclared(RecommendationsSchema);
    assert RequiresAllDeclared(ArrayNode(ReportItemSchema));
    assert RequiresAllDeclared(Str);
    var ps := ResponseSchema.properties;
    assert forall i :: 0 <= i < |ps| ==> RequiresAllDeclared(ps[i].schema);
  }

  /** The declared properties at each object level are the fields of the
      corresponding record, in the same order. */
  lemma ResponseSchemaMatchesRecords()
    ensures Names(ResponseSchema.properties) == AnalysisResultFields
    ensures Names(PatientDetailsSchema.properties) == PatientDetailsFields
    ensures Names(ReportItemSchema.properties) == PhysicianReportItemFields
    ensures Names(RecommendationsSchema.properties) == RecommendationsFields
  {
  }

  /** The nested levels hang under the fields that hold them: the report
      items under `physicianReport` as an array, and the two sub-records
      under `patientDetails` and `recommendations`. */
  lemma ResponseSchemaNesting()
    ensures Lookup(ResponseSchema.properties, "physicianReport") == Some(ArrayNode(ReportItemSchema))
    ensures Lookup(ResponseSchema.properties, "patientDetails") == Some(PatientDetailsSchema)
    ensures Lookup(ResponseSchema.properties, "recommendations") == Some(RecommendationsSchema)
  {
    var ps := ResponseSchema.properties;
    assert Lookup(ps, "physicianReport") == Lookup(ps[1..], "physicianReport") == Lookup(ps[2..], "physicianReport");
    assert Lookup(ps, "recommendations") == Lookup(ps[2..], "recommendations") == Lookup(ps[3..], "recommendations");
  }

  /** The schema does not restrict `status` to the three literals: it is a
      plain string with no enumeration. */
  lemma StatusIsUnrestrictedString()
    ensures Lookup(ReportItemSchema.properties, "status").Some?
    ensures Lookup(ReportItemSchema.properties, "status").value == StringNode(None)
  {
    var ps := ReportItemSchema.properties;
    assert Lookup(ps, "status") == Lookup(ps[1..], "status") == Lookup(ps[2..], "status");
    assert Lookup(ps[2..], "status") == Lookup(ps[3..], "status");
  }
}
