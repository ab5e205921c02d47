/** `CheckExtractor`: the check-constraint children of a table to `CheckStructure` records. */
module CheckExtractor {
  import opened Common
  import opened Records

  /** The fields of a platform `DbObject` that the extractor reads. */
  datatype DbObject = DbObject(name: string, text: string, comment: Option<string>)

  /** One child of kind CHECK: null, an object that is not a `DbObject` (the
      cast throws `ClassCastException`), or a `DbObject` whose fields are read
      with the given outcome. */
  datatype CheckChild = NullChild | NotADbObject | DbObjectChild(read: Attempt<DbObject>)

  predicate Converts(c: CheckChild) {
    c.DbObjectChild? && c.read.Returns?
  }

  /** A non-`Exception` throwable escapes `toCheckStructure`'s own catch. */
  predicate Aborts(c: CheckChild) {
    c.DbObjectChild? && c.read.Throws? && c.read.kind == AnError
  }

  /** `check?.toCheckStructure()`: null children, non-`DbObject`s and reads
      that throw an `Exception` yield null and are skipped; an `Error`
      propagates. */
  function ToCheckStructure(c: CheckChild, position: int): (r: Attempt<Option<CheckStructure>>)
    ensures r.Throws? <==> Aborts(c)
    ensures r.Returns? && r.value.Some? <==> Converts(c)
    ensures Converts(c) ==>
      r.value.value == CheckStructure(position, c.read.value.name, c.read.value.text, c.read.value.comment.GetOr(""))
  {
    match c
    case NullChild => Returns(None)
    case NotADbObject => Returns(None)
    case DbObjectChild(Throws(AnException)) => Returns(None)
    case DbObjectChild(Throws(AnError)) => Throws(AnError)
    case DbObjectChild(Returns(o)) =>
      Returns(Some(CheckStructure(
        position := position,
        name := o.name,
        expression := o.text,
        comment := o.comment.GetOr(""))))
  }

  /** The number of children that become records. */
  function CheckCount(children: seq<CheckChild>): (n: nat)
    ensures n <= |children|
    decreases |children|
  {
    if |children| == 0 then 0
    else (if Converts(children[0]) then 1 else 0) + CheckCount(children[1..])
  }

  /** `rec` is the record of the check at its position, the first child
      being at position `start`. */
  predicate RecordOf(children: seq<CheckChild>, start: int, rec: CheckStructure) {
    start <= rec.position < start + |children|
    && Converts(children[rec.position - start])
    && ToCheckStructure(children[rec.position - start], rec.position) == Returns(Some(rec))
  }

  lemma RecordOfShift(children: seq<CheckChild>, start: int)
    requires |children| > 0
    ensures forall rec :: RecordOf(children[1..], start + 1, rec) ==> RecordOf(children, start, rec)
  {
    forall rec | RecordOf(children[1..], start + 1, rec) ensures RecordOf(children, start, rec) {
      assert children[1..][rec.position - (start + 1)] == children[rec.position - start];
    }
  }

  /** `mapIndexedNotNull` over the children, the first at position `start`. */
  function ChecksFrom(children: seq<CheckChild>, start: int): (r: Option<seq<CheckStructure>>)
    ensures r.None? <==> exists j :: 0 <= j < |children| && Aborts(children[j])
    ensures r.Some? ==> |r.value| == CheckCount(children)
    ensures r.Some? ==> forall k :: 0 <= k < |r.value| ==> RecordOf(children, start, r.value[k])
    ensures r.Some? ==> forall k, l :: 0 <= k < l < |r.value| ==> r.value[k].position < r.value[l].position
    decreases |children|
  {
    if |children| == 0 then Some([])
    else
      var rest := ChecksFrom(children[1..], start + 1);
      RecordOfShift(children, start);
      assert forall j :: 1 <= j < |children| ==> children[1..][j - 1] == children[j];
      match ToCheckStructure(children[0], start)
      case Throws(_) => None
      case Returns(None) => rest
      case Returns(Some(record)) =>
        match rest
        case None => None
        case Some(records) => Some([record] + records)
  }

  /** `CheckExtractor.extract`: `source` is the outcome of reading the table's
      check children. Children that cannot be converted are skipped and the
      others kept; only a failure to read the children, or an `Error` while
      converting one, empties the list (the handler's own read of the table
      name is taken not to throw). */
  function Extract(source: Attempt<seq<CheckChild>>): (r: seq<CheckStructure>)
    ensures source.Throws? ==> r == []
    ensures source.Returns? && (exists j :: 0 <= j < |source.value| && Aborts(source.value[j])) ==> r == []
    ensures source.Returns? && (forall j :: 0 <= j < |source.value| ==> !Aborts(source.value[j])) ==>
      |r| == CheckCount(source.value)
    ensures source.Returns? ==> |r| <= |source.value|
    ensures source.Returns? ==> forall k :: 0 <= k < |r| ==>
      1 <= r[k].position <= |source.value|
      && var o := source.value[r[k].position - 1];
      Converts(o) && r[k] == CheckStructure(r[k].position, o.read.value.name, o.read.value.text, o.read.value.comment.GetOr(""))
    ensures forall k, l :: 0 <= k < l < |r| ==> r[k].position < r[l].position
  {
    match source
    case Throws(_) => []
    case Returns(children) =>
      match ChecksFrom(children, 1)
      case None => []
      case Some(records) => records
  }

  /** A child whose read throws an `Exception` is skipped, not fatal: the check
      after it is still returned, at its own position. */
  lemma SkipExample(o: DbObject)
    ensures Extract(Returns([DbObjectChild(Throws(AnException)), NullChild, DbObjectChild(Returns(o))]))
      == [CheckStructure(3, o.name, o.text, o.comment.GetOr(""))]
  {
    var cs := [DbObjectChild(Throws(AnException)), NullChild, DbObjectChild(Returns(o))];
    assert cs[1..] == [NullChild, DbObjectChild(Returns(o))];
    assert cs[1..][1..] == [DbObjectChild(Returns(o))];
    assert cs[1..][1..][1..] == [];
    var rec := CheckStructure(3, o.name, o.text, o.comment.GetOr(""));
    assert ChecksFrom(cs[1..][1..][1..], 4) == Some([]);
    assert ToCheckStructure(cs[1..][1..][0], 3) == Returns(Some(rec));
    assert [rec] + [] == [rec];
    assert ChecksFrom(cs[1..][1..], 3) == Some([rec]);
    assert ChecksFrom(cs[1..], 2) == Some([rec]);
    assert ChecksFrom(cs, 1) == Some([rec]);
  }
}
