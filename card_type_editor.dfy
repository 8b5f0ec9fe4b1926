/**
 * The card-type editor dialog (src/components/card-types/create-card-type-modal.tsx):
 * an ordered list of field definitions that the dialog's handlers edit in
 * place, the form values around it, and the request a submit sends. The
 * remote calls (template loading, create, update) and the toasts are outside
 * the model; their outcomes are parameters.
 */
module CardTypeEditor {
  import opened Text
  import opened Entities
  import opened FieldKeys

  // ---------------------------------------------------------------------
  // Field list operations, as functions on the list

  /** `Partial<FieldSchema>`: the attributes an edit supplies. */
  datatype FieldPatch = FieldPatch(
    key: Option<string>,
    fieldLabel: Option<string>,
    kind: Option<FieldKind>,
    required: Option<bool>,
    description: Option<string>,
    validation: Option<FieldValidation>,
    options: Option<seq<string>>)

  const NoPatch := FieldPatch(None, None, None, None, None, None, None)

  /** `{ ...field, ...updates }`: the supplied attributes win, the others are kept. */
  function Merge(f: FieldSchema, p: FieldPatch): (r: FieldSchema)
  {
    FieldSchema(
      if p.key.Some? then p.key.value else f.key,
      if p.fieldLabel.Some? then p.fieldLabel.value else f.fieldLabel,
      if p.kind.Some? then p.kind.value else f.kind,
      if p.required.Some? then p.required.value else f.required,
      if p.description.Some? then Some(p.description.value) else f.description,
      if p.validation.Some? then Some(p.validation.value) else f.validation,
      if p.options.Some? then Some(p.options.value) else f.options)
  }

  /** An edit that supplies nothing changes nothing. */
  lemma MergeNothing(f: FieldSchema)
    ensures Merge(f, NoPatch) == f
  {
  }

  /** Applying the same edit twice is applying it once. */
  lemma MergeIdempotent(f: FieldSchema, p: FieldPatch)
    ensures Merge(Merge(f, p), p) == Merge(f, p)
  {
  }

  /** An edit that supplies only the key changes only the key. */
  lemma MergeKeyOnly(f: FieldSchema, key: string)
    ensures Merge(f, NoPatch.(key := Some(key))) == f.(key := key)
  {
  }

  /** `prev.map((field, i) => i === index ? { ...field, ...updates } : field)` */
  function UpdatedAt(fs: seq<FieldSchema>, index: int, p: FieldPatch): (r: seq<FieldSchema>)
    ensures |r| == |fs|
    ensures forall j | 0 <= j < |fs| && j != index :: r[j] == fs[j]
    ensures 0 <= index < |fs| ==> r[index] == Merge(fs[index], p)
    ensures !(0 <= index < |fs|) ==> r == fs
  {
    seq(|fs|, j requires 0 <= j < |fs| => if j == index then Merge(fs[j], p) else fs[j])
  }

  /** `prev.filter((_, i) => i !== index)`: exactly entry `index` goes, the rest keep their order. */
  function RemovedAt(fs: seq<FieldSchema>, index: int): (r: seq<FieldSchema>)
    ensures 0 <= index < |fs| ==> |r| == |fs| - 1
    ensures 0 <= index < |fs| ==> forall j | 0 <= j < index :: r[j] == fs[j]
    ensures 0 <= index < |fs| ==> forall j | index <= j < |r| :: r[j] == fs[j + 1]
    ensures !(0 <= index < |fs|) ==> r == fs
  {
    if 0 <= index < |fs| then fs[..index] + fs[index + 1..] else fs
  }

  datatype Direction = Up | Down

  function Target(index: int, dir: Direction): int
  {
    if dir == Up then index - 1 else index + 1
  }

  /**
   * `moveField`: entry `index` changes place with its neighbour in
   * direction `dir`; nothing happens when there is no such neighbour.
   */
  function Moved(fs: seq<FieldSchema>, index: int, dir: Direction): (r: seq<FieldSchema>)
    requires 0 <= index < |fs|
    ensures |r| == |fs| && multiset(r) == multiset(fs)
    ensures var t := Target(index, dir);
      if 0 <= t < |fs| then
        r[t] == fs[index] && r[index] == fs[t]
        && forall j | 0 <= j < |fs| && j != index && j != t :: r[j] == fs[j]
      else r == fs
  {
    var t := Target(index, dir);
    if 0 <= t < |fs| then fs[index := fs[t]][t := fs[index]] else fs
  }

  /** Moving an entry up and then moving it back down restores the list. */
  lemma UpThenDownRestores(fs: seq<FieldSchema>, index: int)
    requires 0 < index < |fs|
    ensures Moved(Moved(fs, index, Up), index - 1, Down) == fs
  {
    var r := Moved(Moved(fs, index, Up), index - 1, Down);
    assert forall j | 0 <= j < |fs| :: r[j] == fs[j];
  }

  /** Moving an entry down and then back up restores the list. */
  lemma DownThenUpRestores(fs: seq<FieldSchema>, index: int)
    requires 0 <= index < |fs| - 1
    ensures Moved(Moved(fs, index, Down), index + 1, Up) == fs
  {
    var r := Moved(Moved(fs, index, Down), index + 1, Up);
    assert forall j | 0 <= j < |fs| :: r[j] == fs[j];
  }

  /** Two edits of different entries commute. */
  lemma UpdatesCommute(fs: seq<FieldSchema>, i: int, p: FieldPatch, j: int, q: FieldPatch)
    requires i != j
    ensures UpdatedAt(UpdatedAt(fs, i, p), j, q) == UpdatedAt(UpdatedAt(fs, j, q), i, p)
  {
    var a := UpdatedAt(UpdatedAt(fs, i, p), j, q);
    var b := UpdatedAt(UpdatedAt(fs, j, q), i, p);
    assert forall k | 0 <= k < |fs| :: a[k] == b[k];
  }

  /** The field a new card type starts with. */
  const NameField := FieldSchema("name", "Name", FieldKind.Text, true, Some("The name of this item"), None, None)

  /** The field "Add Field" appends. */
  const BlankField := FieldSchema("", "", FieldKind.Text, false, Some(""), None, None)

  /**
   * The icon a new or reset type gets. The source's literal is the UTF-8 bytes
   * of U+1F4C4 read back as Windows-1252, i.e. these four characters, not the
   * emoji itself.
   */
  const DefaultIcon := "\U{F0}\U{178}\U{201C}\U{201E}"

  /**
   * What typing `text` into the label box of `f` supplies: the label, and
   * a key derived from it only when the field has no key yet.
   */
  function LabelPatch(f: FieldSchema, text: string): (p: FieldPatch)
  {
    NoPatch.(fieldLabel := Some(text), key := Some(if f.key != [] then f.key else GenerateFieldKey(text)))
  }

  /** A label edit sets the label; it keeps a key that is there and derives one otherwise. */
  lemma LabelEditKeepsKey(f: FieldSchema, text: string)
    ensures Merge(f, LabelPatch(f, text)).fieldLabel == text
    ensures f.key != [] ==> Merge(f, LabelPatch(f, text)).key == f.key
    ensures f.key == [] ==> Merge(f, LabelPatch(f, text)).key == GenerateFieldKey(text)
    ensures Merge(f, LabelPatch(f, text)) == f.(fieldLabel := text, key := Merge(f, LabelPatch(f, text)).key)
  {
  }

  /** Once a key is there, further label edits never touch it. */
  lemma KeyStableUnderLabelEdits(f: FieldSchema, first: string, second: string)
    requires first != [] && 'a' <= LowerChar(first[0]) <= 'z'
    ensures var g := Merge(f, LabelPatch(f, first));
      g.key != [] && Merge(g, LabelPatch(g, second)).key == g.key
  {
    LetterFirstGivesValidKey(first);
  }

  // ---------------------------------------------------------------------
  // Submit

  /** The body sent to create or update a card type. */
  datatype CardTypeBody = CardTypeBody(
    name: string,
    description: Option<string>,
    icon: string,
    color: string,
    worldId: Id,
    schema: seq<FieldSchema>)

  datatype CardTypeSubmission =
    | Blocked
    | NoUser
    | Refused(message: string)
    | Create(body: CardTypeBody)
    | Update(id: Id, body: CardTypeBody)

  const NameRequiredMessage := "Card type name is required"
  const FieldRequiredMessage := "At least one field is required"

  /**
   * The browser's own check of one field row before the submit event reaches
   * the handler: the label input is `required`, the key input is `required`
   * with the pattern `^[a-z][a-z0-9_]*$`, and for a text field the
   * "Max Length" number input (showing `max || ''`) has the range 1 to 10000.
   */
  predicate FieldRowValid(f: FieldSchema)
  {
    && f.fieldLabel != []
    && MatchesKeyPattern(f.key)
    && (f.kind != FieldKind.Text || f.validation.None? || f.validation.value.max.None?
        || f.validation.value.max.value == 0 || 1 <= f.validation.value.max.value <= 10000)
  }

  /** The whole form passes the browser's check: a non-empty name (`required`) and valid rows. */
  predicate FormConstraintsMet(name: string, fields: seq<FieldSchema>)
  {
    name != [] && forall i | 0 <= i < |fields| :: FieldRowValid(fields[i])
  }

  /** A ready-made card type offered when a new one is created. */
  datatype CardTypeTemplate = CardTypeTemplate(
    id: Id,
    name: string,
    description: Option<string>,
    icon: string,
    color: string,
    schema: seq<FieldSchema>)

  class CardTypeForm {
    var editingId: Option<Id>
    var name: string
    var description: string
    var icon: string
    var color: string
    var fields: seq<FieldSchema>
    var loading: bool
    var selectedTemplate: Option<Id>
    var showTemplates: bool

    /**
     * The initial state: taken from the card type being edited, with
     * `x || default` for each value, or the defaults for a new card type.
     * `generatedColor` stands for the random colour drawn at start.
     */
    constructor(editing: Option<CardType>, generatedColor: string)
      ensures editingId == (if editing.Some? then Some(editing.value.id) else None)
      ensures editing.Some? ==>
        && name == editing.value.name
        && description == StringOr(editing.value.description, "")
        && icon == StringOr(editing.value.icon, DefaultIcon)
        && color == StringOr(editing.value.color, generatedColor)
        && fields == editing.value.schema
      ensures editing.None? ==>
        name == "" && description == "" && icon == DefaultIcon && color == generatedColor
        && fields == [NameField]
      ensures !loading && selectedTemplate.None? && showTemplates == editing.None?
    {
      if editing.Some? {
        var t := editing.value;
        editingId := Some(t.id);
        name := t.name;
        description := StringOr(t.description, "");
        icon := StringOr(t.icon, DefaultIcon);
        color := StringOr(t.color, generatedColor);
        fields := t.schema;
      } else {
        editingId := None;
        name := "";
        description := "";
        icon := DefaultIcon;
        color := generatedColor;
        fields := [NameField];
      }
      loading := false;
      selectedTemplate := None;
      showTemplates := editing.None?;
    }

    /** The values `handleClose` puts back. */
    predicate IsReset(newColor: string)
      reads this
    {
      name == "" && description == "" && icon == DefaultIcon && color == newColor && fields == [NameField]
    }

    method AddField()
      modifies this
      ensures fields == old(fields) + [BlankField]
      ensures |fields| == |old(fields)| + 1 && fields[..|old(fields)|] == old(fields)
      ensures name == old(name) && description == old(description) && icon == old(icon) && color == old(color)
      ensures loading == old(loading) && selectedTemplate == old(selectedTemplate) && showTemplates == old(showTemplates)
      ensures editingId == old(editingId)
    {
      fields := fields + [BlankField];
    }

    method UpdateField(index: int, p: FieldPatch)
      modifies this
      ensures fields == UpdatedAt(old(fields), index, p)
      ensures name == old(name) && description == old(description) && icon == old(icon) && color == old(color)
      ensures loading == old(loading) && selectedTemplate == old(selectedTemplate) && showTemplates == old(showTemplates)
      ensures editingId == old(editingId)
    {
      fields := UpdatedAt(fields, index, p);
    }

    /** The label box of entry `index`, which exists while it is shown. */
    method EditLabel(index: int, text: string)
      requires 0 <= index < |fields|
      modifies this
      ensures fields == UpdatedAt(old(fields), index, LabelPatch(old(fields)[index], text))
      ensures fields[index].fieldLabel == text
      ensures old(fields)[index].key != [] ==> fields[index].key == old(fields)[index].key
      ensures name == old(name) && description == old(description) && icon == old(icon) && color == old(color)
      ensures loading == old(loading) && selectedTemplate == old(selectedTemplate) && showTemplates == old(showTemplates)
      ensures editingId == old(editingId)
    {
      UpdateField(index, LabelPatch(fields[index], text));
    }

    /** The options box of entry `index`: one option per non-blank line. */
    method EditOptions(index: int, text: string)
      modifies this
      ensures fields == UpdatedAt(old(fields), index, NoPatch.(options := Some(ParseOptions(text))))
      ensures name == old(name) && description == old(description) && icon == old(icon) && color == old(color)
      ensures loading == old(loading) && selectedTemplate == old(selectedTemplate) && showTemplates == old(showTemplates)
      ensures editingId == old(editingId)
    {
      UpdateField(index, NoPatch.(options := Some(ParseOptions(text))));
    }

    /** Refuses to remove the last field; otherwise drops entry `index`. */
    method RemoveField(index: int) returns (error: Option<string>)
      modifies this
      ensures |old(fields)| <= 1 ==> error == Some(FieldRequiredMessage) && fields == old(fields)
      ensures |old(fields)| > 1 ==> error.None? && fields == RemovedAt(old(fields), index)
      ensures |old(fields)| >= 1 ==> |fields| >= 1
      ensures name == old(name) && description == old(description) && icon == old(icon) && color == old(color)
      ensures loading == old(loading) && selectedTemplate == old(selectedTemplate) && showTemplates == old(showTemplates)
      ensures editingId == old(editingId)
    {
      if |fields| <= 1 {
        return Some(FieldRequiredMessage);
      }
      fields := RemovedAt(fields, index);
      error := None;
    }

    /** Copies the list, swaps the two entries in the copy and installs it. */
    method MoveField(index: int, dir: Direction)
      requires 0 <= index < |fields|
      modifies this
      ensures fields == Moved(old(fields), index, dir)
      ensures name == old(name) && description == old(description) && icon == old(icon) && color == old(color)
      ensures loading == old(loading) && selectedTemplate == old(selectedTemplate) && showTemplates == old(showTemplates)
      ensures editingId == old(editingId)
    {
      var t := Target(index, dir);
      if t < 0 || t >= |fields| {
        return;
      }
      var copy := new FieldSchema[|fields|](j requires 0 <= j < |fields| reads this => fields[j]);
      var temp := copy[index];
      copy[index] := copy[t];
      copy[t] := temp;
      fields := copy[..];
    }

    method ApplyTemplate(template: CardTypeTemplate)
      modifies this
      ensures selectedTemplate == Some(template.id) && !showTemplates
      ensures name == template.name && description == StringOr(template.description, "")
      ensures icon == template.icon && color == template.color && fields == template.schema
      ensures loading == old(loading) && editingId == old(editingId)
    {
      selectedTemplate := Some(template.id);
      name := template.name;
      description := StringOr(template.description, "");
      icon := template.icon;
      color := template.color;
      fields := template.schema;
      showTemplates := false;
    }

    /** Hides the templates and keeps the values typed so far. */
    method StartFromScratch()
      modifies this
      ensures selectedTemplate.None? && !showTemplates
      ensures name == old(name) && description == old(description) && icon == old(icon) && color == old(color)
      ensures fields == old(fields) && loading == old(loading) && editingId == old(editingId)
    {
      selectedTemplate := None;
      showTemplates := false;
    }

    /** `handleClose`; `newColor` stands for the random colour drawn for the reset. */
    method HandleClose(newColor: string) returns (closed: bool)
      modifies this
      ensures closed <==> !old(loading)
      ensures closed ==> IsReset(newColor)
      ensures !closed ==>
        (name == old(name) && description == old(description) && icon == old(icon)
         && color == old(color) && fields == old(fields))
      ensures loading == old(loading) && editingId == old(editingId)
      ensures selectedTemplate == old(selectedTemplate) && showTemplates == old(showTemplates)
    {
      if loading {
        return false;
      }
      ResetForm(newColor);
      closed := true;
    }

    /** The reset `handleClose` performs. */
    method ResetForm(newColor: string)
      modifies this
      ensures IsReset(newColor)
      ensures loading == old(loading) && editingId == old(editingId)
      ensures selectedTemplate == old(selectedTemplate) && showTemplates == old(showTemplates)
    {
      name := "";
      description := "";
      icon := DefaultIcon;
      color := newColor;
      fields := [NameField];
    }

    /** What a submit does before any remote call. */
    function Submission(hasUser: bool, worldId: Id): (s: CardTypeSubmission)
      reads this
      ensures s.NoUser? <==> !hasUser
      ensures s == Refused(NameRequiredMessage) <==> hasUser && IsBlank(name)
      ensures s == Refused(FieldRequiredMessage) <==> hasUser && !IsBlank(name) && fields == []
      ensures (s.Create? || s.Update?) <==> hasUser && !IsBlank(name) && fields != []
      ensures s.Create? <==> hasUser && !IsBlank(name) && fields != [] && editingId.None?
      ensures s.Update? ==> editingId == Some(s.id)
      ensures s.Create? || s.Update? ==>
        && s.body.name == Trim(name) && s.body.name != []
        && s.body.description == TrimmedOrNull(description)
        && s.body.icon == icon && s.body.color == color && s.body.worldId == worldId
        && s.body.schema == fields
    {
      if !hasUser then NoUser
      else if Trim(name) == [] then Refused(NameRequiredMessage)
      else if |fields| == 0 then Refused(FieldRequiredMessage)
      else
        var body := CardTypeBody(Trim(name), TrimmedOrNull(description), icon, color, worldId, fields);
        if editingId.Some? then Update(editingId.value, body) else Create(body)
    }

    /**
     * Submitting the form: the browser's constraint check first (a failing
     * input blocks the submit event and nothing changes), then `handleSubmit`,
     * with the outcome of the remote call as `succeeded`.
     * On success the dialog closes through `handleClose`, which still sees
     * the `loading` of the render the submit started from (false), so the
     * form is reset; `loading` is false again at the end either way.
     */
    method Submit(hasUser: bool, worldId: Id, succeeded: bool, newColor: string) returns (s: CardTypeSubmission)
      requires !loading
      modifies this
      ensures !old(FormConstraintsMet(name, fields)) ==> s == Blocked && unchanged(this)
      ensures old(FormConstraintsMet(name, fields)) ==> s == old(Submission(hasUser, worldId))
      ensures !loading && editingId == old(editingId)
      ensures (s.Create? || s.Update?) && succeeded ==> IsReset(newColor)
      ensures !((s.Create? || s.Update?) && succeeded) ==>
        (name == old(name) && description == old(description) && icon == old(icon)
         && color == old(color) && fields == old(fields))
      ensures selectedTemplate == old(selectedTemplate) && showTemplates == old(showTemplates)
    {
      if !FormConstraintsMet(name, fields) {
        return Blocked;
      }
      s := Submission(hasUser, worldId);
      var sends := s.Create? || s.Update?;
      if !sends {
        return;
      }
      loading := true;
      if succeeded {
        ResetForm(newColor);
      }
      loading := false;
    }
  }

  /**
   * Past the browser's check, the handler's name refusal is left only for a
   * name made of white space: the empty name never reaches it.
   */
  lemma NameRefusedOnlyWhenWhiteSpace(form: CardTypeForm, hasUser: bool, worldId: Id)
    requires FormConstraintsMet(form.name, form.fields)
    ensures form.Submission(hasUser, worldId) == Refused(NameRequiredMessage) <==>
      hasUser && form.name != [] && IsBlank(form.name)
  {
  }

  /**
   * A schema that is sent has passed the browser's check (`Submit` sends only
   * then): every label is filled and every key matches the key pattern.
   */
  lemma SentSchemaIsValid(form: CardTypeForm, hasUser: bool, worldId: Id)
    requires FormConstraintsMet(form.name, form.fields)
    ensures var s := form.Submission(hasUser, worldId);
      s.Create? || s.Update? ==>
        forall i | 0 <= i < |s.body.schema| ::
          s.body.schema[i].fieldLabel != [] && MatchesKeyPattern(s.body.schema[i].key)
  {
  }

  /**
   * A row whose key was derived from a label starting with a digit or white
   * space fails the key pattern, so the browser blocks the whole form.
   */
  lemma DerivedKeyBlocksSave(name: string, fields: seq<FieldSchema>, i: nat, fieldLabel: string)
    requires i < |fields| && fields[i].key == GenerateFieldKey(fieldLabel)
    requires fieldLabel != [] && (('0' <= fieldLabel[0] <= '9') || IsJsSpace(fieldLabel[0]))
    ensures !FormConstraintsMet(name, fields)
  {
    MayBreakKeyPattern(fieldLabel);
  }
}
