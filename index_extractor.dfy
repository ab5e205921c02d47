/** `IndexExtractor`: platform indexes to `IndexStructure` records. */
module IndexExtractor {
  import opened Common
  import opened Records
  import C = Constants

  /** The fields of a platform `DasIndex` that the extractor reads. */
  datatype DasIndex = DasIndex(
    name: string,
    columnNames: seq<string>,
    isUnique: bool,
    comment: Option<string>)

  /** Upper-casing of one character, restricted to ASCII letters. */
  function UpperChar(c: char): (u: char)
    ensures 'a' <= c <= 'z' ==> 'A' <= u <= 'Z' && u as int == c as int - 32
    ensures !('a' <= c <= 'z') ==> u == c
  {
    if 'a' <= c <= 'z' then (c as int - 32) as char else c
  }

  /** `String.uppercase()` on ASCII letters; other characters are kept. */
  function Uppercase(s: string): (r: string)
    ensures |r| == |s|
    ensures forall i :: 0 <= i < |s| ==> r[i] == UpperChar(s[i])
  {
    seq(|s|, i requires 0 <= i < |s| => UpperChar(s[i]))
  }

  lemma UppercaseOfUpper(s: string)
    requires forall i :: 0 <= i < |s| ==> !('a' <= s[i] <= 'z')
    ensures Uppercase(s) == s
  {
  }

  /** A name (already upper-cased) denotes a primary key when it contains
      "PRIMARY" or starts with "PK_". The third test of the source,
      equality with "PRIMARY", adds nothing: such a name contains "PRIMARY". */
  function IsPrimaryIndex(nameUpper: string): (primary: bool)
    ensures primary <==> Contains(nameUpper, C.IndexTypePrimary) || StartsWith(nameUpper, C.IndexPrefixPrimary)
  {
    if nameUpper == C.IndexNamePrimary then
      assert StartsWith(nameUpper[0..], C.IndexTypePrimary);
      true
    else
      Contains(nameUpper, C.IndexTypePrimary)
      || StartsWith(nameUpper, C.IndexPrefixPrimary)
      || nameUpper == C.IndexNamePrimary
  }

  /** PRIMARY beats UNIQUE beats INDEX; exactly one of them is chosen. */
  function DetermineIndexType(isPrimary: bool, isUnique: bool): (t: string)
    ensures t == C.IndexTypePrimary <==> isPrimary
    ensures t == C.IndexTypeUnique <==> !isPrimary && isUnique
    ensures t == C.IndexTypeIndex <==> !isPrimary && !isUnique
  {
    if isPrimary then C.IndexTypePrimary
    else if isUnique then C.IndexTypeUnique
    else C.IndexTypeIndex
  }

  /** `DasIndex.toIndexStructure()` with the position of `mapIndexed` applied. */
  function ToIndexStructure(idx: DasIndex, position: int): (s: IndexStructure)
    ensures s.position == position
    ensures s.name == idx.name
    ensures s.unique <==> IsPrimaryIndex(Uppercase(idx.name)) || idx.isUnique
    ensures s.indexType == DetermineIndexType(IsPrimaryIndex(Uppercase(idx.name)), idx.isUnique)
    ensures s.indexType == C.IndexTypeIndex <==> !s.unique
    ensures s.indexType in {C.IndexTypePrimary, C.IndexTypeUnique, C.IndexTypeIndex}
    ensures |Join(idx.columnNames, C.ColumnSeparator)| > 0 ==> s.columns == Join(idx.columnNames, C.ColumnSeparator)
    ensures |Join(idx.columnNames, C.ColumnSeparator)| == 0 ==> s.columns == idx.name
    ensures idx.comment.Some? ==> s.comment == idx.comment.value
    ensures idx.comment.None? ==> s.comment == ""
  {
    var columnNames := Join(idx.columnNames, C.ColumnSeparator);
    var nameUpper := Uppercase(idx.name);
    var isPrimary := IsPrimaryIndex(nameUpper);
    var isUnique := idx.isUnique;
    var indexType := DetermineIndexType(isPrimary, isUnique);
    IndexStructure(
      position := position,
      name := idx.name,
      columns := if |columnNames| == 0 then idx.name else columnNames,
      unique := isPrimary || isUnique,
      indexType := indexType,
      comment := idx.comment.GetOr(""))
  }

  /** The host delivered the index list and every index could be read. */
  predicate AllRead(source: Attempt<seq<Attempt<DasIndex>>>) {
    source.Returns? && forall k :: 0 <= k < |source.value| ==> source.value[k].Returns?
  }

  /** `IndexExtractor.extract`: `source` is the outcome of
      `DasUtil.getIndices(table)`, each item the outcome of reading one index.
      A throw while reading the list or any index yields the empty list (the
      handler's own read of the table name is taken not to throw). */
  function Extract(source: Attempt<seq<Attempt<DasIndex>>>): (r: seq<IndexStructure>)
    ensures !AllRead(source) ==> r == []
    ensures AllRead(source) ==> |r| == |source.value|
    ensures AllRead(source) ==>
      forall k :: 0 <= k < |r| ==> r[k] == ToIndexStructure(source.value[k].value, k + 1)
  {
    match source
    case Throws(_) => []
    case Returns(indexes) =>
      match MapPositioned(indexes, ToIndexStructure, 1)
      case None => []
      case Some(records) => records
  }

  /** All or nothing: the result is empty or has one record per index. */
  lemma ExtractAllOrNothing(source: Attempt<seq<Attempt<DasIndex>>>)
    ensures var r := Extract(source);
      r == [] || (source.Returns? && |r| == |source.value|)
  {
  }

  /** Positions are 1..n in source order. */
  lemma ExtractPositions(source: Attempt<seq<Attempt<DasIndex>>>)
    ensures forall k :: 0 <= k < |Extract(source)| ==> Extract(source)[k].position == k + 1
  {
  }

  /** Unique detection never looks at the name: two non-primary indexes with
      the same platform flag get the same type and flag, whatever they are called. */
  lemma TypeIgnoresNonPrimaryName(a: DasIndex, b: DasIndex, p: int, q: int)
    requires !IsPrimaryIndex(Uppercase(a.name)) && !IsPrimaryIndex(Uppercase(b.name))
    requires a.isUnique == b.isUnique
    ensures ToIndexStructure(a, p).indexType == ToIndexStructure(b, q).indexType
    ensures ToIndexStructure(a, p).unique == ToIndexStructure(b, q).unique
  {
  }

  /** "PK_USER" without the platform flag is PRIMARY and shown as unique. */
  lemma PrimaryByPrefixExample(idx: DasIndex)
    requires idx.name == "PK_USER" && !idx.isUnique
    ensures ToIndexStructure(idx, 1).indexType == C.IndexTypePrimary
    ensures ToIndexStructure(idx, 1).unique
  {
    UppercaseOfUpper(idx.name);
    assert StartsWith(Uppercase(idx.name), C.IndexPrefixPrimary);
  }

  /** Upper-casing makes the prefix test case-insensitive. */
  lemma PrimaryIgnoresCaseExample(idx: DasIndex)
    requires idx.name == "pk_user"
    ensures ToIndexStructure(idx, 1).indexType == C.IndexTypePrimary
  {
    assert Uppercase(idx.name)[..3] == "PK_";
  }

  /** A name suggesting uniqueness does not matter: "UQ_EMAIL" is UNIQUE with
      the flag and INDEX without it. */
  lemma UniqueOnlyByFlagExample(idx: DasIndex)
    requires idx.name == "UQ_EMAIL"
    ensures ToIndexStructure(idx, 1).indexType == (if idx.isUnique then C.IndexTypeUnique else C.IndexTypeIndex)
    ensures ToIndexStructure(idx, 1).unique == idx.isUnique
  {
    UppercaseOfUpper(idx.name);
    var u := Uppercase(idx.name);
    assert u == "UQ_EMAIL";
    assert u[0..][..7][0] == 'U' && C.IndexTypePrimary[0] == 'P';
    assert u[1..][..7][0] == 'Q';
    assert !Contains(u, C.IndexTypePrimary);
  }
}
