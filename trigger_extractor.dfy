/** `TriggerExtractor`: the trigger children of a table to `TriggerStructure` records. */
module TriggerExtractor {
  import opened Common
  import opened Records
  import C = Constants

  /** The fields of a platform `DasTrigger` that the extractor reads.
      `turnName` is `turn?.name`; `text` is what `asOptional.get().toString()`
      yields for the trigger, shown as its statement. */
  datatype DasTrigger = DasTrigger(
    name: string,
    eventNames: seq<string>,
    turnName: Option<string>,
    text: string,
    comment: Option<string>)

  /** One child of kind TRIGGER: either not a `DasTrigger` (the `as?` cast
      gives null), or a trigger whose conversion returns or throws. */
  datatype TriggerChild = NotATrigger | Trigger(read: Attempt<DasTrigger>)

  predicate Converts(c: TriggerChild) {
    c.Trigger? && c.read.Returns?
  }

  predicate Fails(c: TriggerChild) {
    c.Trigger? && c.read.Throws?
  }

  /** `DasTrigger.toTriggerStructure()` with the position applied. */
  function ToTriggerStructure(t: DasTrigger, position: int): (s: TriggerStructure)
    ensures s.position == position && s.name == t.name && s.statement == t.text
    ensures s.event == Join(t.eventNames, C.ColumnSeparator)
    ensures t.turnName.Some? ==> s.timing == t.turnName.value
    ensures t.turnName.None? ==> s.timing == "null"
    ensures s.comment == t.comment.GetOr("")
  {
    TriggerStructure(
      position := position,
      name := t.name,
      event := Join(t.eventNames, C.ColumnSeparator),
      timing := NullableString(t.turnName),
      statement := t.text,
      comment := t.comment.GetOr(""))
  }

  /** The number of children that become records. */
  function TriggerCount(children: seq<TriggerChild>): (n: nat)
    ensures n <= |children|
    decreases |children|
  {
    if |children| == 0 then 0
    else (if children[0].Trigger? then 1 else 0) + TriggerCount(children[1..])
  }

  /** `rec` is the record of the trigger at its position, the first child
      being at position `start`. */
  predicate RecordOf(children: seq<TriggerChild>, start: int, rec: TriggerStructure) {
    start <= rec.position < start + |children|
    && Converts(children[rec.position - start])
    && rec == ToTriggerStructure(children[rec.position - start].read.value, rec.position)
  }

  lemma RecordOfShift(children: seq<TriggerChild>, start: int)
    requires |children| > 0
    ensures forall rec :: RecordOf(children[1..], start + 1, rec) ==> RecordOf(children, start, rec)
  {
    forall rec | RecordOf(children[1..], start + 1, rec) ensures RecordOf(children, start, rec) {
      assert children[1..][rec.position - (start + 1)] == children[rec.position - start];
    }
  }

  /** `mapIndexedNotNull` over the children, the first child at position
      `start`: non-triggers are dropped, each trigger becomes a record carrying
      its unfiltered position, and a throw while converting any trigger
      aborts the whole list (`None`). */
  function TriggersFrom(children: seq<TriggerChild>, start: int): (r: Option<seq<TriggerStructure>>)
    ensures r.None? <==> exists j :: 0 <= j < |children| && Fails(children[j])
    ensures r.Some? ==> |r.value| == TriggerCount(children)
    ensures r.Some? ==> forall k :: 0 <= k < |r.value| ==> RecordOf(children, start, r.value[k])
    ensures r.Some? ==> forall k, l :: 0 <= k < l < |r.value| ==> r.value[k].position < r.value[l].position
    decreases |children|
  {
    if |children| == 0 then Some([])
    else
      var rest := TriggersFrom(children[1..], start + 1);
      RecordOfShift(children, start);
      assert forall j :: 1 <= j < |children| ==> children[1..][j - 1] == children[j];
      match children[0]
      case NotATrigger => rest
      case Trigger(Throws(_)) => None
      case Trigger(Returns(t)) =>
        match rest
        case None => None
        case Some(records) => Some([ToTriggerStructure(t, start)] + records)
  }

  /** `TriggerExtractor.extract`: `source` is the outcome of reading the
      table's trigger children (`table.dasObject.getDasChildren(TRIGGER)`).
      A failure to read them, or to convert any one trigger, yields the empty
      list: there is no per-trigger recovery (the handler's own read of the
      table name is taken not to throw). */
  function Extract(source: Attempt<seq<TriggerChild>>): (r: seq<TriggerStructure>)
    ensures source.Throws? ==> r == []
    ensures source.Returns? && (exists j :: 0 <= j < |source.value| && Fails(source.value[j])) ==> r == []
    ensures source.Returns? && (forall j :: 0 <= j < |source.value| ==> !Fails(source.value[j])) ==>
      |r| == TriggerCount(source.value)
    ensures source.Returns? ==> |r| <= |source.value|
    ensures source.Returns? ==> forall k :: 0 <= k < |r| ==>
      1 <= r[k].position <= |source.value|
      && Converts(source.value[r[k].position - 1])
      && r[k] == ToTriggerStructure(source.value[r[k].position - 1].read.value, r[k].position)
    ensures forall k, l :: 0 <= k < l < |r| ==> r[k].position < r[l].position
  {
    match source
    case Throws(_) => []
    case Returns(children) =>
      match TriggersFrom(children, 1)
      case None => []
      case Some(records) => records
  }

  /** Positions count every child, so a dropped non-trigger leaves a gap:
      [non-trigger, trigger] yields one record at position 2. */
  lemma PositionGapExample(t: DasTrigger)
    ensures Extract(Returns([NotATrigger, Trigger(Returns(t))])) == [ToTriggerStructure(t, 2)]
  {
    var cs := [NotATrigger, Trigger(Returns(t))];
    assert cs[1..] == [Trigger(Returns(t))];
    assert cs[1..][1..] == [];
  }
}
