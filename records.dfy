/** The display records of the `model` package. Each record's `position` is the
    1-based place the extractor gave it; it is fixed when the record is built. */
module Records {
  import opened Common

  datatype ColumnStructure = ColumnStructure(
    position: int,
    name: string,
    dataType: string,
    nullable: bool,
    defaultValue: Option<string>,
    primaryKey: bool,
    autoIncrement: bool,
    comment: string)

  datatype IndexStructure = IndexStructure(
    position: int,
    name: string,
    columns: string,
    unique: bool,
    indexType: string,
    comment: string)

  datatype ForeignKeyStructure = ForeignKeyStructure(
    position: int,
    name: string,
    columns: string,
    referencedTable: string,
    referencedColumns: string,
    onUpdate: string,
    onDelete: string,
    comment: string)

  datatype TriggerStructure = TriggerStructure(
    position: int,
    name: string,
    event: string,
    timing: string,
    statement: string,
    comment: string)

  datatype CheckStructure = CheckStructure(
    position: int,
    name: string,
    expression: string,
    comment: string)

  /** Everything shown for one table (the table handle itself is not modelled). */
  datatype TableStructureData = TableStructureData(
    columns: seq<ColumnStructure>,
    indexes: seq<IndexStructure>,
    foreignKeys: seq<ForeignKeyStructure>,
    triggers: seq<TriggerStructure>,
    checks: seq<CheckStructure>,
    tableComment: string)
}
