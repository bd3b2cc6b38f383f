/** The values the explorer works on. They stand for the classes of the
    explorer's `lib.model` (StandardField, EntityTypeField, Match) and for the
    read-only view of the validator's ConfigUniverse that the explorer reads;
    those classes are built elsewhere and appear here only as data. */
module Model {
  import opened Wrappers

  /** A field as the explorer compares it: namespace (empty for the global
      namespace), standard field name and increment suffix. */
  datatype StandardField = StandardField(namespace: string, name: string, increment: string)

  /** A field of an entity type: a standard field plus its optionality. */
  datatype EntityTypeField = EntityTypeField(namespace: string, name: string, optional: bool, increment: string)
  {
    /** The key `GetFieldsForTypeName` sorts by. */
    function StandardFieldName(): string
    {
      name
    }
  }

  /** `model.StandardizeField`: the projection that forgets optionality. */
  function Standardize(f: EntityTypeField): StandardField
  {
    StandardField(f.namespace, f.name, f.increment)
  }

  predicate IsRequired(f: EntityTypeField)
  {
    !f.optional
  }

  /** A field reference inside an entity type's field map
      (namespace, field name, increment). */
  datatype FieldParts = FieldParts(namespace: string, field: string, increment: string)

  /** An entry of `EntityType.GetAllFields()`: a field and whether it is optional. */
  datatype QualifiedField = QualifiedField(field: FieldParts, optional: bool)

  /** An entity type. `namespace` is the name of the namespace that defines
      it. `allFields` holds the values of `GetAllFields()` in iteration order,
      which already include the inherited fields when
      `inheritedFieldsExpanded` holds. */
  datatype EntityType = EntityType(
    namespace: string,
    typename: string,
    isAbstract: bool,
    unqualifiedParentNames: set<string>,
    inheritedFieldsExpanded: bool,
    allFields: seq<QualifiedField>)

  /** A namespace of entity types; `validTypes` holds the values of its
      `valid_types_map` in iteration order. */
  datatype TypeNamespace = TypeNamespace(namespace: string, validTypes: seq<EntityType>)

  /** The ontology: the entity type namespaces in order, and the field
      registry as the set of (namespace, field name) pairs it defines. */
  datatype ConfigUniverse = ConfigUniverse(
    typeNamespaces: seq<TypeNamespace>,
    definedFields: set<(string, string)>)

  /** `field_universe.IsFieldDefined(namespace_name, fieldname)`. */
  predicate IsFieldDefined(u: ConfigUniverse, namespace: string, fieldname: string)
  {
    (namespace, fieldname) in u.definedFields
  }

  /** `entity_type_universe.GetEntityType(namespace, typename)`: the first type
      called `typename` in a namespace called `namespace`, if there is one. */
  function GetEntityType(u: ConfigUniverse, namespace: string, typename: string): (r: Option<EntityType>)
    ensures r.Some? ==> r.value.typename == typename
    ensures r.Some? ==> exists i :: 0 <= i < |u.typeNamespaces| && u.typeNamespaces[i].namespace == namespace
                                 && r.value in u.typeNamespaces[i].validTypes
    ensures r.Some? <==> exists i, j :: 0 <= i < |u.typeNamespaces| && 0 <= j < |u.typeNamespaces[i].validTypes|
                                   && u.typeNamespaces[i].namespace == namespace
                                   && u.typeNamespaces[i].validTypes[j].typename == typename
  {
    FindType(u.typeNamespaces, namespace, typename)
  }

  function FindType(tns: seq<TypeNamespace>, namespace: string, typename: string): (r: Option<EntityType>)
    ensures r.Some? ==> r.value.typename == typename
    ensures r.Some? ==> exists i :: 0 <= i < |tns| && tns[i].namespace == namespace && r.value in tns[i].validTypes
    ensures r.Some? <==> exists i, j :: 0 <= i < |tns| && 0 <= j < |tns[i].validTypes|
                                   && tns[i].namespace == namespace
                                   && tns[i].validTypes[j].typename == typename
  {
    if tns == [] then None
    else
      var found := if tns[0].namespace == namespace then FindInNamespace(tns[0].validTypes, typename) else None;
      if found.Some? then found
      else
        var r := FindType(tns[1..], namespace, typename);
        assert r.Some? ==> exists i, j :: 0 <= i < |tns| && 0 <= j < |tns[i].validTypes|
                                     && tns[i].namespace == namespace
                                     && tns[i].validTypes[j].typename == typename by {
          if r.Some? {
            var i, j :| 0 <= i < |tns[1..]| && 0 <= j < |tns[1..][i].validTypes|
                        && tns[1..][i].namespace == namespace && tns[1..][i].validTypes[j].typename == typename;
            assert tns[i + 1] == tns[1..][i];
          }
        }
        assert (exists i, j :: 0 <= i < |tns| && 0 <= j < |tns[i].validTypes|
                           && tns[i].namespace == namespace
                           && tns[i].validTypes[j].typename == typename) ==> r.Some? by {
          if exists i, j :: 0 <= i < |tns| && 0 <= j < |tns[i].validTypes|
                         && tns[i].namespace == namespace && tns[i].validTypes[j].typename == typename {
            var i, j :| 0 <= i < |tns| && 0 <= j < |tns[i].validTypes|
                        && tns[i].namespace == namespace && tns[i].validTypes[j].typename == typename;
            assert i != 0;
            assert tns[1..][i - 1] == tns[i];
          }
        }
        r
  }

  function FindInNamespace(types: seq<EntityType>, typename: string): (r: Option<EntityType>)
    ensures r.Some? ==> r.value in types && r.value.typename == typename
    ensures r.None? <==> forall j :: 0 <= j < |types| ==> types[j].typename != typename
  {
    if types == [] then None
    else if types[0].typename == typename then Some(types[0])
    else
      var r := FindInNamespace(types[1..], typename);
      assert r.None? ==> forall j :: 0 <= j < |types| ==> types[j].typename != typename by {
        if r.None? {
          forall j | 0 <= j < |types| ensures types[j].typename != typename {
            if j > 0 { assert types[j] == types[1..][j - 1]; }
          }
        }
      }
      r
  }

  /** The EntityTypeField the explorer builds from one field-map entry. */
  function ToEntityTypeField(q: QualifiedField): EntityTypeField
  {
    EntityTypeField(q.field.namespace, q.field.field, q.optional, q.field.increment)
  }

  /** `Match(field_list, entity_type, match_score)`. */
  datatype Match = Match(fields: seq<StandardField>, entityType: EntityType, score: real)

}
