/** The clauses `sortByColumn` adds for the field named by `order[0]`. */
module Sort {
  import opened Common
  import opened PhpStrings
  import opened Query
  import opened Request

  /**
   * `columns[order[0].column].data ?? null`: the index is the request's string,
   * which reaches a column only when it is that column's decimal position.
   */
  function SortField(columns: seq<Column>, index: string): (f: Option<string>)
    ensures forall i :: 0 <= i < |columns| && index == Decimal(i) ==> f == columns[i].data
    ensures f.Some? ==> exists i :: 0 <= i < |columns| && index == Decimal(i) && f == columns[i].data
  {
    match ParseIndex(index)
    case None =>
      assert forall i :: 0 <= i < |columns| && index == Decimal(i) ==> false by {
        forall i | 0 <= i < |columns| && index == Decimal(i) ensures false {
          DecimalRoundTrip(i);
        }
      }
      None
    case Some(i) =>
      ParseIndexCanonical(index);
      assert forall j :: 0 <= j < |columns| && index == Decimal(j) ==> j == i by {
        forall j | 0 <= j < |columns| && index == Decimal(j) ensures j == i {
          DecimalRoundTrip(j);
        }
      }
      if i < |columns| then columns[i].data else None
  }

  /**
   * The column name PHP builds as `$table.'.'.$otherField`: a nested entry is an
   * array there, which PHP converts to the text "Array".
   */
  function SubFieldLabel(sf: SubField): string {
    match sf
    case Plain(name) => name
    case Nested(_, _) => "Array"
  }

  /** `$otherField[1]` used as a column name: a list leaf becomes "Array". */
  function LeafLabel(leaf: Leaf): string {
    match leaf
    case LeafField(name) => name
    case LeafFields(_) => "Array"
  }

  /** One ORDER BY per declared sub-field on the related table (the BelongsToMany and HasOne loops). */
  function FieldOrders(table: string, fields: seq<SubField>, dir: string): (r: seq<Clause>)
    ensures |r| == |fields|
    ensures forall i :: 0 <= i < |fields| ==>
      r[i] == OrderBy(Qualify(table, SubFieldLabel(fields[i])), dir)
  {
    if fields == [] then []
    else
      FieldOrders(table, fields[..|fields| - 1], dir)
        + [OrderBy(Qualify(table, SubFieldLabel(fields[|fields| - 1])), dir)]
  }

  /** What one sub-field of a BelongsTo relation adds: a plain ORDER BY, or a join of the through-relation and an ORDER BY on it. */
  function BelongsToOrder(table: string, sf: SubField, dir: string): seq<Clause> {
    match sf
    case Plain(name) => [OrderBy(Qualify(table, name), dir)]
    case Nested(th, leaf) =>
      [LeftJoin(th.table, th.foreignKey, th.ownerKey), OrderBy(Qualify(th.table, LeafLabel(leaf)), dir)]
  }

  /** The BelongsTo loop over the sub-fields. */
  function BelongsToOrders(table: string, fields: seq<SubField>, dir: string): seq<Clause> {
    if fields == [] then []
    else BelongsToOrders(table, fields[..|fields| - 1], dir) + BelongsToOrder(table, fields[|fields| - 1], dir)
  }

  /** Each BelongsTo sub-field adds one ORDER BY key in the requested direction, plus joins. */
  lemma {:induction false} BelongsToOrdersShape(table: string, fields: seq<SubField>, dir: string)
    ensures OrderKeys(BelongsToOrders(table, fields, dir)) == |fields|
    ensures forall c :: c in BelongsToOrders(table, fields, dir) ==> c.LeftJoin? || (c.OrderBy? && c.dir == dir)
  {
    if fields != [] {
      var init := BelongsToOrders(table, fields[..|fields| - 1], dir);
      var last := BelongsToOrder(table, fields[|fields| - 1], dir);
      BelongsToOrdersShape(table, fields[..|fields| - 1], dir);
      OrderKeysAppend(init, last);
      match fields[|fields| - 1]
      case Plain(_) =>
        assert last[..0] == [];
      case Nested(_, _) =>
        assert last[..1] == [last[0]];
        NoOrderingNoKeys(last[..1]);
    }
  }

  /** The clauses `sortByColumn` adds for `field` in direction `dir`. */
  function SortClauses(field: string, dir: string, table: string, relations: map<string, Relation>)
    : seq<Clause>
  {
    if field !in relations then [OrderBy(field, dir)]
    else
      match relations[field]
      case MorphTo(_) => []
      case Related(kind, other, fields) => RelatedSortClauses(kind, table, other, fields, dir)
  }

  /** The clauses for sorting on a relation of class `kind` to table `other`. */
  function RelatedSortClauses(kind: RelationKind, table: string, other: string, fields: seq<SubField>, dir: string)
    : seq<Clause>
  {
    match kind
    case BelongsTo(foreignKey, ownerKey) =>
      [LeftJoin(other, foreignKey, ownerKey), SelectAll(table)] + BelongsToOrders(other, fields, dir)
    case BelongsToMany(pivot, foreignPivotKey, parentKey, relatedPivotKey, relatedKeyName) =>
      [LeftJoin(pivot, foreignPivotKey, parentKey),
       LeftJoin(other, relatedPivotKey, Qualify(other, relatedKeyName)),
       SelectAll(table), Distinct]
        + FieldOrders(other, fields, dir)
    case HasMany(foreignKey, parentKey) => [OrderByCount(other, foreignKey, parentKey, dir)]
    case HasOne => FieldOrders(other, fields, dir)
    case OtherKind => []
  }

  /** How many ORDER BY keys sorting on `field` should give, by the kind of field. */
  function ExpectedKeys(field: string, relations: map<string, Relation>): nat {
    if field !in relations then 1
    else
      match relations[field]
      case MorphTo(_) => 0
      case Related(kind, _, fields) =>
        match kind
        case HasMany(_, _) => 1
        case OtherKind => 0
        case _ => |fields|
  }

  /**
   * Sorting adds no condition, so it never changes which rows match, and every
   * ORDER BY it adds goes in the requested direction.
   */
  lemma SortNeverFilters(field: string, dir: string, table: string, relations: map<string, Relation>)
    ensures forall c :: c in SortClauses(field, dir, table, relations) ==>
      !IsCondition(c) && (IsOrdering(c) ==> c.dir == dir)
  {
    if field in relations && relations[field].Related? && relations[field].kind.BelongsTo? {
      BelongsToOrdersShape(relations[field].table, relations[field].fields, dir);
    }
  }

  /**
   * Sorting adds one ORDER BY per declared sub-field; a direct field and a
   * HasMany count add exactly one, MorphTo and other relation classes none.
   */
  lemma SortKeys(field: string, dir: string, table: string, relations: map<string, Relation>)
    ensures OrderKeys(SortClauses(field, dir, table, relations)) == ExpectedKeys(field, relations)
  {
    if field !in relations {
      SingleKey(OrderBy(field, dir));
    } else if relations[field].Related? {
      var Related(kind, other, fields) := relations[field];
      RelatedSortKeys(kind, table, other, fields, dir);
    }
  }

  lemma RelatedSortKeys(kind: RelationKind, table: string, other: string, fields: seq<SubField>, dir: string)
    ensures OrderKeys(RelatedSortClauses(kind, table, other, fields, dir))
      == match kind case HasMany(_, _) => 1 case OtherKind => 0 case _ => |fields|
  {
    match kind
    case BelongsTo(foreignKey, ownerKey) =>
      BelongsToOrdersShape(other, fields, dir);
      PrefixedKeys([LeftJoin(other, foreignKey, ownerKey), SelectAll(table)], BelongsToOrders(other, fields, dir));
    case BelongsToMany(pivot, foreignPivotKey, parentKey, relatedPivotKey, relatedKeyName) =>
      FieldOrdersKeys(other, fields, dir);
      PrefixedKeys([LeftJoin(pivot, foreignPivotKey, parentKey),
                    LeftJoin(other, relatedPivotKey, Qualify(other, relatedKeyName)),
                    SelectAll(table), Distinct],
                   FieldOrders(other, fields, dir));
    case HasMany(foreignKey, parentKey) =>
      SingleKey(OrderByCount(other, foreignKey, parentKey, dir));
    case HasOne =>
      FieldOrdersKeys(other, fields, dir);
    case OtherKind =>
  }

  lemma SingleKey(c: Clause)
    ensures OrderKeys([c]) == if IsOrdering(c) then 1 else 0
  {
    assert [c][..0] == [];
  }

  /** Joins, selects and DISTINCT in front add no ORDER BY key. */
  lemma PrefixedKeys(head: seq<Clause>, tail: seq<Clause>)
    requires forall c :: c in head ==> !IsOrdering(c)
    ensures OrderKeys(head + tail) == OrderKeys(tail)
  {
    NoOrderingNoKeys(head);
    OrderKeysAppend(head, tail);
  }

  /** The BelongsTo loop, one sub-field further. */
  lemma BelongsToOrdersStep(table: string, fields: seq<SubField>, i: nat, dir: string)
    requires i < |fields|
    ensures BelongsToOrders(table, fields[..i + 1], dir)
      == BelongsToOrders(table, fields[..i], dir) + BelongsToOrder(table, fields[i], dir)
  {
    assert fields[..i + 1][..i] == fields[..i];
  }

  lemma {:induction false} NoOrderingNoKeys(cs: seq<Clause>)
    requires forall c :: c in cs ==> !IsOrdering(c)
    ensures OrderKeys(cs) == 0
  {
    if cs != [] {
      NoOrderingNoKeys(cs[..|cs| - 1]);
    }
  }

  lemma {:induction false} FieldOrdersKeys(table: string, fields: seq<SubField>, dir: string)
    ensures OrderKeys(FieldOrders(table, fields, dir)) == |fields|
  {
    if fields != [] {
      var r := FieldOrders(table, fields, dir);
      FieldOrdersKeys(table, fields[..|fields| - 1], dir);
      assert r[..|r| - 1] == FieldOrders(table, fields[..|fields| - 1], dir);
    }
  }
}
