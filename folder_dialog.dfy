/**
 * The create/edit folder dialog (src/components/folders/create-folder-modal.tsx):
 * the parent choices offered while a folder is edited (the folder itself and
 * everything below it are left out, so no cycle can be chosen), the form
 * values loaded when the dialog opens, and the request a submit sends.
 */
module FolderDialog {
  import opened Text
  import opened Seqs
  import opened Entities

  /** The ids of the folders of a list, as a set. */
  function IdSet(fs: seq<Folder>): (r: set<Id>)
    ensures forall f | f in fs :: f.id in r
  {
    set f | f in fs :: f.id
  }

  /** `x` lies somewhere below the folder with id `ancestor`, following `parent_id` links. */
  ghost predicate Descendant(fs: seq<Folder>, ancestor: Id, x: Id)
  {
    exists path: seq<Folder> :: IsChain(fs, Some(ancestor), path) && path != [] && path[|path| - 1].id == x
  }

  /** A child of `p` followed by a chain below that child is a chain below `p`. */
  lemma DescendantThroughChild(fs: seq<Folder>, p: Id, child: Folder, x: Id)
    requires child in fs && child.parentId == Some(p)
    requires Descendant(fs, child.id, x)
    ensures Descendant(fs, p, x)
  {
    var path: seq<Folder> :| IsChain(fs, Some(child.id), path) && path != [] && path[|path| - 1].id == x;
    var longer := [child] + path;
    assert longer[|longer| - 1] == path[|path| - 1];
    assert IsChain(fs, Some(p), longer);
  }

  /** A set that holds `e` and every child of its members holds every descendant of `e`. */
  lemma {:induction false} ClosedHoldsDescendants(fs: seq<Folder>, s: set<Id>, e: Id, path: seq<Folder>)
    requires e in s
    requires forall f | f in fs && f.parentId.Some? && f.parentId.value in s :: f.id in s
    requires IsChain(fs, Some(e), path)
    ensures forall i | 0 <= i < |path| :: path[i].id in s
  {
    if path != [] {
      var init := path[..|path| - 1];
      assert IsChain(fs, Some(e), init);
      ClosedHoldsDescendants(fs, s, e, init);
      var last := path[|path| - 1];
      if |path| > 1 {
        assert path[|path| - 2].id in s;
      }
      assert last.id in s;
      assert forall i | 0 <= i < |path| - 1 :: path[i] == init[i];
    }
  }

  /** Removing a new element from what is still left shrinks it. */
  lemma LeftShrinks(all: set<Id>, before: set<Id>, after: set<Id>, x: Id)
    requires before <= after && x in all && x !in before && x in after
    ensures |all - after| < |all - before|
  {
    assert all - after <= (all - before) - {x};
    assert |(all - before) - {x}| == |all - before| - 1;
    SubsetCard(all - after, (all - before) - {x});
  }

  /** Every child of a folder added after `excluded` has been added too. */
  predicate ChildrenOfAddedIn(fs: seq<Folder>, excluded: set<Id>, r: set<Id>)
  {
    forall f | f in fs && f.parentId.Some? && f.parentId.value in r - excluded :: f.id in r
  }

  /** Everything added after `excluded` lies below `p`. */
  ghost predicate AddedBelow(fs: seq<Folder>, p: Id, excluded: set<Id>, r: set<Id>)
  {
    forall x | x in r - excluded :: Descendant(fs, p, x)
  }

  /** One step of the walk: adding a child of `p` and walking below it keeps both facts. */
  lemma WalkStep(fs: seq<Folder>, p: Id, excluded: set<Id>, before: set<Id>, child: Folder, r: set<Id>)
    requires excluded <= before && ChildrenOfAddedIn(fs, excluded, before) && AddedBelow(fs, p, excluded, before)
    requires child in fs && child.parentId == Some(p) && child.id !in before
    requires before + {child.id} <= r
    requires forall f | f in fs && f.parentId == Some(child.id) :: f.id in r
    requires ChildrenOfAddedIn(fs, before + {child.id}, r) && AddedBelow(fs, child.id, before + {child.id}, r)
    ensures ChildrenOfAddedIn(fs, excluded, r) && AddedBelow(fs, p, excluded, r)
  {
    forall x | x in r - excluded
      ensures Descendant(fs, p, x)
    {
      if x == child.id {
        assert IsChain(fs, Some(p), [child]);
      } else if x !in before {
        DescendantThroughChild(fs, p, child, x);
      }
    }
    forall f | f in fs && f.parentId.Some? && f.parentId.value in r - excluded
      ensures f.id in r
    {
      if f.parentId.value in before {
        assert f.id in before;
      }
    }
  }

  /**
   * `findDescendants(parentId)`: walks the list and, for every child of
   * `parentId` not yet excluded, excludes it and walks its children in
   * turn. Each recursive call is made only for an id that has just been
   * added, so the walk ends even when the parent links form a cycle.
   */
  method FindDescendants(fs: seq<Folder>, parentId: Id, excluded: set<Id>) returns (r: set<Id>)
    ensures excluded <= r && r <= excluded + IdSet(fs)
    ensures forall f | f in fs && f.parentId == Some(parentId) :: f.id in r
    ensures ChildrenOfAddedIn(fs, excluded, r)
    ensures AddedBelow(fs, parentId, excluded, r)
    decreases |IdSet(fs) - excluded|
  {
    r := excluded;
    for i := 0 to |fs|
      invariant excluded <= r && r <= excluded + IdSet(fs)
      invariant forall j | 0 <= j < i && fs[j].parentId == Some(parentId) :: fs[j].id in r
      invariant ChildrenOfAddedIn(fs, excluded, r)
      invariant AddedBelow(fs, parentId, excluded, r)
    {
      var folder := fs[i];
      if folder.parentId == Some(parentId) && folder.id !in r {
        var before := r;
        r := r + {folder.id};
        LeftShrinks(IdSet(fs), excluded, r, folder.id);
        r := FindDescendants(fs, folder.id, r);
        WalkStep(fs, parentId, excluded, before, folder, r);
      }
    }
  }

  /**
   * `buildParentOptions(folders, excludeId)`: without an id to exclude the
   * list is returned as it is; otherwise the folder with that id and every
   * folder below it are dropped, the rest keeping their order.
   */
  method BuildParentOptions(fs: seq<Folder>, excludeId: Option<Id>) returns (r: seq<Folder>)
    ensures excludeId.None? || excludeId == Some([]) ==> r == fs
    ensures excludeId.Some? && excludeId.value != [] ==>
      var e := excludeId.value;
      && (forall f | f in r :: f in fs && f.id != e && !Descendant(fs, e, f.id))
      && (forall f | f in fs && f.id != e && !Descendant(fs, e, f.id) :: f in r)
      && (forall f | f in fs ::
            Count(r, f) == if f.id != e && !Descendant(fs, e, f.id) then Count(fs, f) else 0)
      && IsSubsequence(r, fs)
  {
    if excludeId.None? || excludeId.value == [] {
      return fs;
    }
    var e := excludeId.value;
    var excluded := FindDescendants(fs, e, {e});
    var keep := (f: Folder) => f.id !in excluded;
    r := Filter(fs, keep);
    FilterIsSubsequence(fs, keep);
    FilterCounts(fs, keep);
    forall f | f in fs && f.id != e && !Descendant(fs, e, f.id)
      ensures f in r
    {
      assert f.id !in excluded;
    }
    forall f | f in r
      ensures f.id != e && !Descendant(fs, e, f.id)
    {
      if Descendant(fs, e, f.id) {
        var path: seq<Folder> :| IsChain(fs, Some(e), path) && path != [] && path[|path| - 1].id == f.id;
        ClosedHoldsDescendants(fs, excluded, e, path);
      }
    }
  }

  /**
   * The parent selector: absent when there is nothing to offer, otherwise
   * the root-level folders of the offered list ("None (Root level)" aside).
   */
  function ParentChoices(available: seq<Folder>): (r: Option<seq<Folder>>)
    ensures r.None? <==> available == []
    ensures r.Some? ==> r.value == RootLevelFolders(available)
  {
    if |available| == 0 then None else Some(RootLevelFolders(available))
  }

  /** A folder's own children are never offered as its parent, nor is the folder itself. */
  lemma ChildNotOffered(fs: seq<Folder>, e: Id, child: Folder)
    requires child in fs && child.parentId == Some(e)
    ensures Descendant(fs, e, child.id)
  {
    assert IsChain(fs, Some(e), [child]);
  }

  // ---------------------------------------------------------------------
  // Form and submit

  const FolderNameRequired := "Folder name is required"
  const DefaultFolderColor := "blue"

  datatype FolderChanges = FolderChanges(
    name: string,
    description: Option<string>,
    color: string,
    parentId: Option<Id>)

  datatype NewFolder = NewFolder(
    worldId: Id,
    name: string,
    description: Option<string>,
    color: string,
    parentId: Option<Id>,
    position: int)

  datatype FolderSubmission =
    | Refused(message: string)
    | UpdateFolder(id: Id, changes: FolderChanges)
    | CreateFolder(folder: NewFolder)

  /** The toast shown when the remote call fails. */
  function FailureMessage(editing: bool): (m: string)
    ensures editing ==> m == "Failed to update folder"
    ensures !editing ==> m == "Failed to create folder"
  {
    if editing then "Failed to update folder" else "Failed to create folder"
  }

  class FolderForm {
    var name: string
    var description: string
    var color: string
    var parentId: Option<Id>

    constructor()
      ensures name == "" && description == "" && color == DefaultFolderColor && parentId.None?
    {
      name := "";
      description := "";
      color := DefaultFolderColor;
      parentId := None;
    }

    /** The reset that runs when the dialog opens: the edited folder's values, or the defaults. */
    method Open(editing: Option<Folder>)
      modifies this
      ensures editing.Some? ==>
        && name == editing.value.name
        && description == StringOr(editing.value.description, "")
        && color == StringOr(Some(editing.value.color), DefaultFolderColor)
        && parentId == editing.value.parentId
      ensures editing.None? ==>
        name == "" && description == "" && color == DefaultFolderColor && parentId.None?
    {
      if editing.Some? {
        var f := editing.value;
        name := f.name;
        description := StringOr(f.description, "");
        color := StringOr(Some(f.color), DefaultFolderColor);
        parentId := f.parentId;
      } else {
        name := "";
        description := "";
        color := DefaultFolderColor;
        parentId := None;
      }
    }

    /** What a submit sends, before the remote call. */
    function Submission(editing: Option<Folder>, worldId: Id): (s: FolderSubmission)
      reads this
      ensures s.Refused? <==> IsBlank(name)
      ensures s.Refused? ==> s.message == FolderNameRequired
      ensures s.UpdateFolder? <==> !IsBlank(name) && editing.Some?
      ensures s.UpdateFolder? ==>
        && s.id == editing.value.id
        && s.changes == FolderChanges(Trim(name), TrimmedOrNull(description), color, parentId)
      ensures s.CreateFolder? ==>
        && s.folder.worldId == worldId && s.folder.position == 0
        && s.folder.name == Trim(name) && s.folder.name != []
        && s.folder.description == TrimmedOrNull(description)
        && s.folder.color == color && s.folder.parentId == parentId
    {
      if Trim(name) == [] then Refused(FolderNameRequired)
      else if editing.Some? then
        UpdateFolder(editing.value.id, FolderChanges(Trim(name), TrimmedOrNull(description), color, parentId))
      else CreateFolder(NewFolder(worldId, Trim(name), TrimmedOrNull(description), color, parentId, 0))
    }
  }

  /** Opening on a folder and submitting unchanged sends that folder's own values back, trimmed. */
  lemma ReopenedFolderResubmits(form: FolderForm, f: Folder)
    requires form.name == f.name && IsTrimmed(f.name)
    requires form.description == StringOr(f.description, "")
    requires f.description.None? || IsTrimmed(f.description.value)
    requires form.parentId == f.parentId
    ensures form.Submission(Some(f), f.worldId).UpdateFolder?
    ensures var c := form.Submission(Some(f), f.worldId).changes;
      c.name == f.name && c.description == f.description && c.parentId == f.parentId
  {
    TrimKeepsTrimmed(f.name);
    if f.description.Some? {
      TrimKeepsTrimmed(f.description.value);
    } else {
      assert AllSpace("");
    }
  }
}
