/** `ForeignKeyExtractor`: platform foreign keys to `ForeignKeyStructure` records. */
module ForeignKeyExtractor {
  import opened Common
  import opened Records
  import C = Constants

  /** The fields of a platform `DasForeignKey` that the extractor reads. The
      update and delete rules are enum constants; only their names are read,
      so they are held as those names. `tableName` is `table?.name`, the name
      of the table owning the key, when there is one. */
  datatype DasForeignKey = DasForeignKey(
    name: string,
    columnNames: seq<string>,
    refTableName: Option<string>,
    refColumnNames: seq<string>,
    updateRuleName: string,
    deleteRuleName: string,
    comment: Option<string>,
    tableName: Option<string>)

  /** The name given to a key whose platform name is empty: "FK_" followed by
      the owning table's name, or by "null" when there is no owning table
      (what `StringBuilder.append` writes for a null string). */
  function DefaultName(tableName: Option<string>): (n: string)
    ensures StartsWith(n, C.FkPrefix)
    ensures n[|C.FkPrefix|..] == NullableString(tableName)
  {
    C.FkPrefix + NullableString(tableName)
  }

  /** `DasForeignKey.toForeignKeyStructure()` with the position of `mapIndexed` applied. */
  function ToForeignKeyStructure(fk: DasForeignKey, position: int): (s: ForeignKeyStructure)
    ensures s.position == position
    ensures |fk.name| > 0 ==> s.name == fk.name
    ensures |fk.name| == 0 ==> s.name == DefaultName(fk.tableName)
    ensures |s.name| > 0
    ensures s.columns == Join(fk.columnNames, C.ColumnSeparator)
    ensures s.referencedColumns == Join(fk.refColumnNames, C.ColumnSeparator)
    ensures s.referencedTable == fk.refTableName.GetOr("")
    ensures s.onUpdate == fk.updateRuleName && s.onDelete == fk.deleteRuleName
    ensures s.comment == fk.comment.GetOr("")
  {
    var finalName := if |fk.name| == 0 then DefaultName(fk.tableName) else fk.name;
    ForeignKeyStructure(
      position := position,
      name := finalName,
      columns := Join(fk.columnNames, C.ColumnSeparator),
      referencedTable := fk.refTableName.GetOr(""),
      referencedColumns := Join(fk.refColumnNames, C.ColumnSeparator),
      onUpdate := fk.updateRuleName,
      onDelete := fk.deleteRuleName,
      comment := fk.comment.GetOr(""))
  }

  /** The host delivered the key list and every key could be read. */
  predicate AllRead(source: Attempt<seq<Attempt<DasForeignKey>>>) {
    source.Returns? && forall k :: 0 <= k < |source.value| ==> source.value[k].Returns?
  }

  /** `ForeignKeyExtractor.extract`: `source` is the outcome of
      `DasUtil.getForeignKeys(table)`, each item the outcome of reading one key.
      A throw while reading the list or any key yields the empty list (the
      handler's own read of the table name is taken not to throw). */
  function Extract(source: Attempt<seq<Attempt<DasForeignKey>>>): (r: seq<ForeignKeyStructure>)
    ensures !AllRead(source) ==> r == []
    ensures AllRead(source) ==> |r| == |source.value|
    ensures AllRead(source) ==>
      forall k :: 0 <= k < |r| ==> r[k] == ToForeignKeyStructure(source.value[k].value, k + 1)
  {
    match source
    case Throws(_) => []
    case Returns(keys) =>
      match MapPositioned(keys, ToForeignKeyStructure, 1)
      case None => []
      case Some(records) => records
  }

  /** Positions are 1..n in source order, and the result is all or nothing. */
  lemma ExtractPositions(source: Attempt<seq<Attempt<DasForeignKey>>>)
    ensures var r := Extract(source);
      (r == [] || (source.Returns? && |r| == |source.value|))
      && forall k :: 0 <= k < |r| ==> r[k].position == k + 1
  {
  }

  /** An unnamed key on table "orders" is shown as "FK_orders". */
  lemma DefaultNameExample(fk: DasForeignKey)
    requires fk.name == "" && fk.tableName == Some("orders")
    ensures ToForeignKeyStructure(fk, 1).name == "FK_orders"
  {
  }

  /** Unlike index columns, empty foreign-key column lists stay empty. */
  lemma NoColumnFallback(fk: DasForeignKey)
    requires fk.columnNames == []
    ensures ToForeignKeyStructure(fk, 1).columns == ""
  {
  }
}
