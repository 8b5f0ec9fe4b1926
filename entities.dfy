/**
 * The records the components exchange with the hosted data service
 * (src/types/entities.ts), reduced to the attributes the modelled logic reads.
 */
module Entities {
  import opened Text
  import opened Seqs

  type Id = string

  datatype Visibility = Private | Shared | Public

  datatype Folder = Folder(
    id: Id,
    worldId: Id,
    name: string,
    description: Option<string>,
    parentId: Option<Id>,
    color: string,
    position: int)

  datatype World = World(
    id: Id,
    ownerId: Id,
    title: string,
    genre: Option<string>,
    summary: Option<string>,
    visibility: Visibility,
    cardCount: Option<int>)

  datatype Card = Card(
    id: Id,
    worldId: Id,
    typeId: Id,
    folderId: Option<Id>,
    name: string,
    coverImageUrl: Option<string>,
    summary: Option<string>,
    position: int)

  /** The kinds a card-type field can have. */
  datatype FieldKind =
    | Text | LongText | RichText | Number | Boolean | Select | MultiSelect
    | Date | DateTime | Url | Email | Image | File | Reference | Location | Color

  /** Bounds and pattern of a field; numbers are kept as integers here. */
  datatype FieldValidation = FieldValidation(
    min: Option<int>,
    max: Option<int>,
    pattern: Option<string>,
    message: Option<string>)

  /** One field definition of a card type. */
  datatype FieldSchema = FieldSchema(
    key: string,
    fieldLabel: string,
    kind: FieldKind,
    required: bool,
    description: Option<string>,
    validation: Option<FieldValidation>,
    options: Option<seq<string>>)

  datatype CardType = CardType(
    id: Id,
    worldId: Id,
    name: string,
    description: Option<string>,
    icon: Option<string>,
    color: Option<string>,
    schema: seq<FieldSchema>)

  /** `!folder.parent_id`: no parent, or a parent id that is the empty string. */
  predicate IsRootLevel(f: Folder)
  {
    f.parentId == None || f.parentId == Some([])
  }

  /**
   * `folders.filter(folder => !folder.parent_id)`, the folder choices of the
   * folder, card and card-edit forms ("only root level folders for simplicity").
   */
  function RootLevelFolders(fs: seq<Folder>): (r: seq<Folder>)
    ensures forall f | f in r :: f in fs && IsRootLevel(f)
    ensures forall f | f in fs && IsRootLevel(f) :: f in r
    ensures forall f | f in fs :: Count(r, f) == if IsRootLevel(f) then Count(fs, f) else 0
    ensures IsSubsequence(r, fs)
  {
    FilterIsSubsequence(fs, IsRootLevel);
    FilterCounts(fs, IsRootLevel);
    Filter(fs, IsRootLevel)
  }

  /**
   * `path` hangs below `parent`: its first folder has that parent and each
   * further folder is a child of the one before it.
   */
  predicate IsChain(fs: seq<Folder>, parent: Option<Id>, path: seq<Folder>)
  {
    && (forall i | 0 <= i < |path| :: path[i] in fs)
    && (path != [] ==> path[0].parentId == parent)
    && (forall i | 1 <= i < |path| :: path[i].parentId == Some(path[i - 1].id))
  }

  /** No two folders of the list share an id. */
  predicate DistinctIds(fs: seq<Folder>)
  {
    forall i, j | 0 <= i < j < |fs| :: fs[i].id != fs[j].id
  }

  /** The ids of a list of folders, in order. */
  function IdsOf(fs: seq<Folder>): (r: seq<Id>)
    ensures |r| == |fs| && forall i | 0 <= i < |fs| :: r[i] == fs[i].id
  {
    seq(|fs|, i requires 0 <= i < |fs| => fs[i].id)
  }
}
