/**
 * What one request carries, what the model class provides, and the package
 * configuration: every input of the compiler.
 */
module Request {
  import opened Common

  // ---------------------------------------------------------------------------
  // The DataTables request

  /** `columns[i]`: the logical field (`data`, possibly null) and its search value. */
  datatype Column = Column(data: Option<string>, search: string)

  /** `order[i]`: the column index as sent (a string) and the direction, passed through as is. */
  datatype Order = Order(column: string, dir: string)

  /** `scope`: a scope name, or a list holding the name followed by its arguments. */
  datatype ScopeOption = ScopeName(name: string) | ScopeList(items: seq<string>)

  /** One `extraWhere` value: a scalar, or an array of values. */
  datatype FilterValue = Scalar(text: string) | Values(items: seq<string>)

  /** `length`: "-1" asks for every row. */
  datatype Length = All | Limit(count: nat)

  /**
   * The request fields. A field missing from the request is "" (search values,
   * column index), [] (columns, order, extraWhere) or None (scope). That is a
   * convention of the model: where PHP reads such a key without `??`, `isset`
   * or `empty`, it raises an error instead.
   */
  datatype Request = Request(
    draw: string,
    start: nat,
    length: Length,
    search: string,
    columns: seq<Column>,
    order: seq<Order>,
    scope: Option<ScopeOption>,
    extraWhere: seq<(string, FilterValue)>)

  /** A column's `data` used as a field name or array key: PHP turns null into "". */
  function FieldName(data: Option<string>): string {
    if data.Some? then data.value else ""
  }

  // ---------------------------------------------------------------------------
  // The model

  /**
   * How a relation is joined for sorting, by the relation class `$model->$field()` returns.
   * Key names are the qualified ones Eloquent reports.
   */
  datatype RelationKind =
    | BelongsTo(foreignKey: string, ownerKey: string)
    | BelongsToMany(pivotTable: string, foreignPivotKey: string, parentKey: string,
                    relatedPivotKey: string, relatedKeyName: string)
    | HasMany(foreignKey: string, parentKey: string)
    | HasOne
    | OtherKind  // a relation class sortByColumn has no branch for

  /** A relation of the related model, reached through the first one. */
  datatype Through = Through(name: string, table: string, foreignKey: string, ownerKey: string)

  /** The field (or list of fields) searched on the far side of a nested relation. */
  datatype Leaf = LeafField(name: string) | LeafFields(names: seq<string>)

  /** One entry of a relation's list in `getRelationFields`: a field name, or `[through, leaf]`. */
  datatype SubField = Plain(name: string) | Nested(through: Through, leaf: Leaf)

  /** One entry of a MorphTo relation's list: `['models' => [...], 'fields' => [...]]`. */
  datatype MorphTarget = MorphTarget(models: seq<string>, fields: seq<string>)

  /** A relation field: its class with the related table, and its declared sub-fields. */
  datatype Relation =
    | Related(kind: RelationKind, table: string, fields: seq<SubField>)
    | MorphTo(targets: seq<MorphTarget>)

  /** The model class, reduced to what the compiler asks of it. */
  datatype Entity = Entity(
    table: string,
    hasProjection: bool,     // method_exists(getDatatablesData)
    hasSearchScope: bool,    // method_exists(scopeSearch)
    scopes: set<string>,     // scope names that have a scope<Name> method
    relationFields: Option<map<string, Relation>>,  // getRelationFields(), when defined
    jsonColumns: set<string>)  // columns whose schema type is json

  /** `$this->relations`: the relation catalog, empty when the model declares none. */
  function Catalog(e: Entity): map<string, Relation> {
    if e.relationFields.Some? then e.relationFields.value else map[]
  }

  // ---------------------------------------------------------------------------
  // Configuration and driver

  datatype Driver = Sqlite | OtherDriver

  /** The `datatables.filters` configuration. */
  datatype Config = Config(
    dateDelimiter: string,
    nullDelimiter: string,
    parseDate: string -> Option<string>,  // Carbon::createFromFormat(date_format, s)->toDateString()
    displayFormat: string,                // date_display_format ('d/m/Y' when unset)
    dateColumns: seq<string>)
}
