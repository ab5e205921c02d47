/** `TableStructureAction`: finding the table the user selected, and the
    action's enablement and launch. */
module TableStructureAction {
  import opened Common

  /** A database element. `isTable` says it is a `DbTable`. */
  datatype DbNode = DbNode(name: string, isTable: bool)

  /** Something a data key or selection yields (`Any?`): null, an object that
      is no `DbElement`, or a database element with its parent chain (the
      parent first, ending where `parent` is null). */
  datatype Item = NoItem | OtherObject | Element(node: DbNode, ancestors: seq<DbNode>)

  /** The IDE project an action runs in. */
  datatype Project = Project(name: string)

  /** What an action event offers. `reflection` is the outcome of calling
      `DatabaseContextFun.getSelectedDbElements` reflectively: `Returns(None)`
      when the result is null or not iterable, a throw when any step of the
      reflective call throws. The other fields are the data keys read, in
      the order the source reads them. */
  datatype ActionEvent = ActionEvent(
    project: Option<Project>,
    reflection: Attempt<Option<seq<Item>>>,
    dbEditorObject: Item,
    langPsiElement: Item,
    commonPsiElement: Item,
    selectedItem: Item,
    selectedItems: Option<seq<Item>>)

  /** The loader the action hands to the progress manager. */
  datatype LoaderTask = LoaderTask(project: Project, table: DbNode)

  /** The first present option of a sequence, none when every one is absent. */
  function FirstSome<T>(s: seq<Option<T>>): (r: Option<T>)
    ensures r.None? <==> forall j :: 0 <= j < |s| ==> s[j].None?
    ensures r.Some? ==> exists k :: 0 <= k < |s| && s[k] == r && forall j :: 0 <= j < k ==> s[j].None?
    decreases |s|
  {
    if |s| == 0 then None
    else if s[0].Some? then s[0]
    else
      assert forall j :: 1 <= j < |s| ==> s[1..][j - 1] == s[j];
      FirstSome(s[1..])
  }

  /** Whatever follows the first present option is never consulted. */
  lemma FirstSomeAt<T>(s: seq<Option<T>>, i: int)
    requires 0 <= i < |s| && s[i].Some?
    requires forall j :: 0 <= j < i ==> s[j].None?
    ensures FirstSome(s) == s[i]
  {
  }

  /** The position of the first table in a chain of elements. */
  function FirstTableIndex(chain: seq<DbNode>): (r: Option<nat>)
    ensures r.Some? ==> r.value < |chain| && chain[r.value].isTable
    ensures r.Some? ==> forall j :: 0 <= j < r.value ==> !chain[j].isTable
    ensures r.None? <==> forall j :: 0 <= j < |chain| ==> !chain[j].isTable
    decreases |chain|
  {
    if |chain| == 0 then None
    else if chain[0].isTable then Some(0)
    else
      assert forall j :: 1 <= j < |chain| ==> chain[1..][j - 1] == chain[j];
      match FirstTableIndex(chain[1..])
      case None => None
      case Some(i) => Some(i + 1)
  }

  /** `findTable`, as a value: a table is its own answer, any other element
      the nearest table among itself and its ancestors, anything else none. */
  function NearestTable(item: Item): (r: Option<DbNode>)
    ensures r.Some? ==> r.value.isTable && item.Element?
    ensures item.Element? && item.node.isTable ==> r == Some(item.node)
    ensures item.Element? ==> (r.None? <==>
      !item.node.isTable && forall j :: 0 <= j < |item.ancestors| ==> !item.ancestors[j].isTable)
    ensures item.Element? && !item.node.isTable && r.Some? ==>
      exists k :: 0 <= k < |item.ancestors| && item.ancestors[k] == r.value
        && forall j :: 0 <= j < k ==> !item.ancestors[j].isTable
  {
    match item
    case NoItem => None
    case OtherObject => None
    case Element(node, ancestors) =>
      var chain := [node] + ancestors;
      assert forall j :: 0 <= j < |ancestors| ==> chain[j + 1] == ancestors[j];
      match FirstTableIndex(chain)
      case None => None
      case Some(i) => Some(chain[i])
  }

  /** `findTable`: walks `current` up the parent chain. */
  method FindTable(element: Item) returns (t: Option<DbNode>)
    ensures t == NearestTable(element)
  {
    match element
    case Element(node, ancestors) =>
      if node.isTable {
        return Some(node);
      }
      var chain := [node] + ancestors;
      // `current` is chain[k]; it is null once k reaches |chain|.
      var k := 0;
      while k < |chain|
        invariant 0 <= k <= |chain|
        invariant forall j :: 0 <= j < k ==> !chain[j].isTable
      {
        if chain[k].isTable {
          return Some(chain[k]);
        }
        k := k + 1;
      }
      return None;
    case _ =>
      return None;
  }

  /** `tryResolveByReflection`: only the first selected element, and only when
      it is itself a table (no walk up its parents). An `Exception` anywhere
      gives null; an `Error` is not caught. */
  function TryResolveByReflection(outcome: Attempt<Option<seq<Item>>>): (r: Attempt<Option<DbNode>>)
    ensures r.Throws? <==> outcome.Throws? && outcome.kind == AnError
    ensures r.Throws? ==> r.kind == AnError
    ensures (r.Returns? && r.value.Some?) <==>
      outcome.Returns? && outcome.value.Some? && |outcome.value.value| > 0
      && outcome.value.value[0].Element? && outcome.value.value[0].node.isTable
    ensures r.Returns? && r.value.Some? ==> r.value.value == outcome.value.value[0].node
  {
    match outcome
    case Throws(AnException) => Returns(None)
    case Throws(AnError) => Throws(AnError)
    case Returns(None) => Returns(None)
    case Returns(Some(elements)) =>
      if |elements| > 0 && elements[0].Element? && elements[0].node.isTable
      then Returns(Some(elements[0].node))
      else Returns(None)
  }

  /** The table each item leads to. */
  function Resolutions(items: seq<Item>): (r: seq<Option<DbNode>>)
    ensures |r| == |items|
    ensures forall k :: 0 <= k < |items| ==> r[k] == NearestTable(items[k])
  {
    seq(|items|, k requires 0 <= k < |items| => NearestTable(items[k]))
  }

  /** `tryResolveByDataKeys`, as a value: the first of the four data keys,
      in the order they are asked, that leads to a table. */
  function ByDataKeys(e: ActionEvent): (r: Option<DbNode>)
    ensures r.Some? ==> r.value.isTable
    ensures r.None? <==> (NearestTable(e.dbEditorObject).None? && NearestTable(e.langPsiElement).None?
      && NearestTable(e.commonPsiElement).None? && NearestTable(e.selectedItem).None?)
  {
    match NearestTable(e.dbEditorObject)
    case Some(t) => Some(t)
    case None =>
      match NearestTable(e.langPsiElement)
      case Some(t) => Some(t)
      case None =>
        match NearestTable(e.commonPsiElement)
        case Some(t) => Some(t)
        case None => NearestTable(e.selectedItem)
  }

  /** `tryResolveByDataKeys`: four lookups, each returning at once when it
      leads to a table. */
  method TryResolveByDataKeys(e: ActionEvent) returns (t: Option<DbNode>)
    ensures t == ByDataKeys(e)
  {
    t := FindTable(e.dbEditorObject);
    if t.Some? {
      return;
    }
    t := FindTable(e.langPsiElement);
    if t.Some? {
      return;
    }
    t := FindTable(e.commonPsiElement);
    if t.Some? {
      return;
    }
    t := FindTable(e.selectedItem);
  }

  /** `tryResolveBySelectedItems`, as a value: the first selected item, in
      array order, that leads to a table; none when there is no array. */
  function BySelectedItems(selected: Option<seq<Item>>): (r: Option<DbNode>)
    ensures r.Some? ==> r.value.isTable
    ensures selected.None? ==> r.None?
    ensures selected.Some? ==>
      (r.None? <==> forall j :: 0 <= j < |selected.value| ==> NearestTable(selected.value[j]).None?)
    ensures selected.Some? && r.Some? ==>
      exists i :: 0 <= i < |selected.value| && r == NearestTable(selected.value[i])
        && forall j :: 0 <= j < i ==> NearestTable(selected.value[j]).None?
  {
    match selected
    case None => None
    case Some(items) => FirstSome(Resolutions(items))
  }

  /** `tryResolveBySelectedItems`. */
  method TryResolveBySelectedItems(e: ActionEvent) returns (t: Option<DbNode>)
    ensures t == BySelectedItems(e.selectedItems)
  {
    if e.selectedItems.None? {
      return None;
    }
    var items := e.selectedItems.value;
    for i := 0 to |items|
      invariant forall j :: 0 <= j < i ==> NearestTable(items[j]).None?
    {
      var found := FindTable(items[i]);
      if found.Some? {
        FirstSomeAt(Resolutions(items), i);
        return found;
      }
    }
    return None;
  }

  /** `resolveSelectedTable`, as a value. */
  function Resolve(e: ActionEvent): (r: Attempt<Option<DbNode>>)
    ensures r.Throws? <==> e.reflection.Throws? && e.reflection.kind == AnError
    ensures r.Returns? && r.value.Some? ==> r.value.value.isTable
  {
    match TryResolveByReflection(e.reflection)
    case Throws(k) => Throws(k)
    case Returns(Some(t)) => Returns(Some(t))
    case Returns(None) =>
      match ByDataKeys(e)
      case Some(t) => Returns(Some(t))
      case None => Returns(BySelectedItems(e.selectedItems))
  }

  /** The six sources, in the order they are tried. */
  function Candidates(e: ActionEvent): (c: seq<Option<DbNode>>)
    requires TryResolveByReflection(e.reflection).Returns?
    ensures |c| == 6
  {
    [TryResolveByReflection(e.reflection).value,
     NearestTable(e.dbEditorObject),
     NearestTable(e.langPsiElement),
     NearestTable(e.commonPsiElement),
     NearestTable(e.selectedItem),
     BySelectedItems(e.selectedItems)]
  }

  /** Resolution is the first source that yields a table: a source is
      consulted only when every earlier one yielded none. */
  lemma ResolveIsFirstSome(e: ActionEvent)
    requires TryResolveByReflection(e.reflection).Returns?
    ensures Resolve(e) == Returns(FirstSome(Candidates(e)))
  {
    var c := Candidates(e);
    FirstSomeOfSix(c[0], c[1], c[2], c[3], c[4], c[5]);
    assert c == [c[0], c[1], c[2], c[3], c[4], c[5]];
  }

  /** The first present option among six, unfolded. */
  lemma FirstSomeOfSix<T>(a: Option<T>, b: Option<T>, c: Option<T>, d: Option<T>, e: Option<T>, f: Option<T>)
    ensures FirstSome([a, b, c, d, e, f]) ==
      if a.Some? then a else if b.Some? then b else if c.Some? then c
      else if d.Some? then d else if e.Some? then e else f
  {
    var s := [a, b, c, d, e, f];
    if a.Some? {
      FirstSomeAt(s, 0);
    } else if b.Some? {
      FirstSomeAt(s, 1);
    } else if c.Some? {
      FirstSomeAt(s, 2);
    } else if d.Some? {
      FirstSomeAt(s, 3);
    } else if e.Some? {
      FirstSomeAt(s, 4);
    } else if f.Some? {
      FirstSomeAt(s, 5);
    } else {
      assert forall j :: 0 <= j < |s| ==> s[j].None?;
    }
  }

  /** A selected column whose parent is a table is not found by the
      reflection step, which does not walk up; the editor data key, which
      does, finds the table. */
  lemma ReflectionDoesNotWalkUp(column: DbNode, table: DbNode, e: ActionEvent)
    requires !column.isTable && table.isTable
    requires e.reflection == Returns(Some([Element(column, [table])]))
    requires e.dbEditorObject == Element(column, [table])
    ensures TryResolveByReflection(e.reflection) == Returns(None)
    ensures Resolve(e) == Returns(Some(table))
  {
    assert FirstTableIndex([column] + [table]) == Some(1) by {
      assert ([column] + [table])[1..] == [table];
    }
  }

  /** `resolveSelectedTable`: the three strategies, each consulted only when
      the ones before found nothing. */
  method ResolveSelectedTable(e: ActionEvent) returns (r: Attempt<Option<DbNode>>)
    ensures r == Resolve(e)
  {
    var byReflection := TryResolveByReflection(e.reflection);
    if byReflection.Throws? || byReflection.value.Some? {
      return byReflection;
    }
    var byDataKeys := TryResolveByDataKeys(e);
    if byDataKeys.Some? {
      return Returns(byDataKeys);
    }
    var bySelectedItems := TryResolveBySelectedItems(e);
    return Returns(bySelectedItems);
  }

  /** The part of an action's presentation that `update` sets. */
  class Presentation {
    var isEnabledAndVisible: bool

    constructor()
      ensures isEnabledAndVisible
    {
      isEnabledAndVisible := true;
    }
  }

  /** `update`: the action is shown and enabled exactly when a table is
      resolved. An uncaught `Error` from resolution leaves the presentation
      as it was and is returned. */
  method Update(e: ActionEvent, presentation: Presentation) returns (thrown: Option<ThrowKind>)
    modifies presentation
    ensures Resolve(e).Throws? ==> thrown == Some(Resolve(e).kind) && unchanged(presentation)
    ensures Resolve(e).Returns? ==> thrown.None? && presentation.isEnabledAndVisible == Resolve(e).value.Some?
  {
    var table := ResolveSelectedTable(e);
    match table
    case Throws(k) =>
      return Some(k);
    case Returns(t) =>
      presentation.isEnabledAndVisible := t.Some?;
      return None;
  }

  /** `actionPerformed`: the loader task it runs, if any. Without a project
      nothing is resolved at all; otherwise a task is started exactly for a
      resolved table, in that project. */
  method ActionPerformed(e: ActionEvent) returns (r: Attempt<Option<LoaderTask>>)
    ensures e.project.None? ==> r == Returns(None)
    ensures e.project.Some? && Resolve(e).Throws? ==> r == Throws(Resolve(e).kind)
    ensures e.project.Some? && Resolve(e).Returns? ==>
      r.Returns? && (r.value.Some? <==> Resolve(e).value.Some?)
    ensures r.Returns? && r.value.Some? ==>
      e.project == Some(r.value.value.project) && Resolve(e) == Returns(Some(r.value.value.table))
      && r.value.value.table.isTable
  {
    if e.project.None? {
      return Returns(None);
    }
    var project := e.project.value;
    var table := ResolveSelectedTable(e);
    match table
    case Throws(k) =>
      return Throws(k);
    case Returns(None) =>
      return Returns(None);
    case Returns(Some(t)) =>
      return Returns(Some(LoaderTask(project, t)));
  }
}
