/**
 * The "create card" and "edit card" dialogs
 * (src/components/cards/create-card-modal.tsx,
 * src/components/cards/edit-card-modal.tsx): their form state, the checks
 * made before anything is sent, the record sent to the service and the
 * message shown when the service refuses.
 */
module CardForms {
  import opened Text
  import opened Entities

  /** The editable fields both dialogs hold. */
  datatype CardFields = CardFields(
    name: string,
    summary: string,
    typeId: Id,
    folderId: Option<Id>,
    coverImageUrl: string)

  const BlankFields := CardFields("", "", "", None, "")

  const NameRequired := "Card name is required"
  const TypeRequired := "Please select a card type"

  /** The checks of `handleSubmit`, in order: a name, then a card type. */
  function CheckFields(f: CardFields): (r: Option<string>)
    ensures r == None <==> !IsBlank(f.name) && f.typeId != []
    ensures IsBlank(f.name) ==> r == Some(NameRequired)
    ensures !IsBlank(f.name) && f.typeId == [] ==> r == Some(TypeRequired)
  {
    if IsBlank(f.name) then Some(NameRequired)
    else if f.typeId == [] then Some(TypeRequired)
    else None
  }

  /** The submit button is disabled exactly when a submit would be refused, or a request is running. */
  predicate SubmitDisabled(f: CardFields, loading: bool)
  {
    IsBlank(f.name) || f.typeId == [] || loading
  }

  lemma DisabledIffRefusedOrBusy(f: CardFields, loading: bool)
    ensures SubmitDisabled(f, loading) <==> loading || CheckFields(f).Some?
  {
  }

  /** The record `createCard` receives. */
  datatype NewCard = NewCard(
    worldId: Id,
    typeId: Id,
    folderId: Option<Id>,
    name: string,
    summary: Option<string>,
    coverImageUrl: Option<string>,
    position: int)

  /** The record `updateCard` receives. */
  datatype CardUpdate = CardUpdate(
    name: string,
    summary: Option<string>,
    typeId: Id,
    folderId: Option<Id>,
    coverImageUrl: Option<string>)

  /** What a press of the submit button leads to. */
  datatype Submission<P> =
    | Ignored             // nothing happens at all
    | Blocked             // the browser's form check stops the submit; the handler never runs
    | Refused(message: string)   // an error toast, no service call
    | Send(payload: P)    // the service is called with `payload`

  /**
   * The browser's check of the `type="url"` cover input: an empty value
   * passes, any other value must parse as an absolute URL. URL parsing is
   * given as `urlValid`.
   */
  predicate CoverRejected(cover: string, urlValid: string -> bool)
  {
    cover != [] && !urlValid(cover)
  }

  /** The create dialog's submit: the cover's browser check, then `handleSubmit`. */
  function CreateSubmission(worldId: Id, f: CardFields, urlValid: string -> bool): (r: Submission<NewCard>)
    ensures !r.Ignored?
    ensures r.Blocked? <==> CoverRejected(f.coverImageUrl, urlValid)
    ensures r.Refused? <==> !CoverRejected(f.coverImageUrl, urlValid) && CheckFields(f).Some?
    ensures r.Refused? ==> r.message == CheckFields(f).value
    ensures r.Send? ==>
      && r.payload.worldId == worldId && r.payload.typeId == f.typeId && r.payload.folderId == f.folderId
      && r.payload.name == Trim(f.name) && r.payload.name != []
      && r.payload.summary == TrimmedOrNull(f.summary)
      && r.payload.coverImageUrl == EmptyToNull(f.coverImageUrl)
      && r.payload.position == 0
  {
    if CoverRejected(f.coverImageUrl, urlValid) then Blocked
    else
    var check := CheckFields(f);
    if check.Some? then Refused(check.value)
    else Send(NewCard(worldId, f.typeId, f.folderId, Trim(f.name), TrimmedOrNull(f.summary),
                      EmptyToNull(f.coverImageUrl), 0))
  }

  /**
   * The edit dialog's submit: without a card nothing is rendered; otherwise
   * the cover's browser check, then `handleSubmit`.
   */
  function EditSubmission(card: Option<Card>, f: CardFields, urlValid: string -> bool): (r: Submission<CardUpdate>)
    ensures r.Ignored? <==> card.None?
    ensures r.Blocked? <==> card.Some? && CoverRejected(f.coverImageUrl, urlValid)
    ensures card.Some? ==> (r.Refused? <==> !CoverRejected(f.coverImageUrl, urlValid) && CheckFields(f).Some?)
    ensures r.Refused? ==> r.message == CheckFields(f).value
    ensures r.Send? ==>
      && r.payload.name == Trim(f.name) && r.payload.name != []
      && r.payload.summary == TrimmedOrNull(f.summary)
      && r.payload.typeId == f.typeId && r.payload.folderId == f.folderId
      && r.payload.coverImageUrl == EmptyToNull(f.coverImageUrl)
  {
    if card.None? then Ignored
    else if CoverRejected(f.coverImageUrl, urlValid) then Blocked
    else
      var check := CheckFields(f);
      if check.Some? then Refused(check.value)
      else Send(CardUpdate(Trim(f.name), TrimmedOrNull(f.summary), f.typeId, f.folderId,
                           EmptyToNull(f.coverImageUrl)))
  }

  /** Both dialogs block and refuse the same inputs, with the same message. */
  lemma CreateAndEditAgree(worldId: Id, card: Card, f: CardFields, urlValid: string -> bool)
    ensures CreateSubmission(worldId, f, urlValid).Blocked? <==> EditSubmission(Some(card), f, urlValid).Blocked?
    ensures CreateSubmission(worldId, f, urlValid).Refused? <==> EditSubmission(Some(card), f, urlValid).Refused?
    ensures CreateSubmission(worldId, f, urlValid).Refused? ==>
              CreateSubmission(worldId, f, urlValid).message == EditSubmission(Some(card), f, urlValid).message
  {
  }

  /** What the dialog shows after an `updateCard` failure / `createCard` failure is computed from the thrown value. */
  datatype Thrown =
    | ErrorInstance(message: string)     // `err instanceof Error`
    | WithMessage(message: string)       // another object with a `message` property
    | ThrownString(text: string)
    | Opaque                             // anything else

  function CreateFailureMessage(err: Thrown): (r: string)
    ensures StartsWith(r, "Failed to create card")
    ensures err.Opaque? <==> r == "Failed to create card"
    ensures err.ErrorInstance? || err.WithMessage? ==> r == "Failed to create card: " + err.message
    ensures err.ThrownString? ==> r == "Failed to create card: " + err.text
  {
    var prefix := "Failed to create card";
    assert StartsWith(prefix + ": ", prefix);
    match err
    case ErrorInstance(m) => prefix + ": " + m
    case WithMessage(m) => assert (prefix + ": " + m)[..|prefix|] == prefix; prefix + ": " + m
    case ThrownString(s) => assert (prefix + ": " + s)[..|prefix|] == prefix; prefix + ": " + s
    case Opaque => prefix
  }

  const UpdateFailureMessage := "Failed to update card"

  /** `value || ''` */
  function NullToEmpty(s: Option<string>): (r: string)
    ensures s.None? ==> r == []
    ensures s.Some? ==> r == s.value
  {
    if s.Some? then s.value else []
  }

  /** The fields the edit dialog loads from a card. */
  function FieldsOf(c: Card): CardFields
  {
    CardFields(c.name, NullToEmpty(c.summary), c.typeId, c.folderId, NullToEmpty(c.coverImageUrl))
  }

  /** A card whose values are already what the dialog would send: trimmed, no empty strings, a type chosen. */
  predicate InDialogShape(c: Card)
  {
    && IsTrimmed(c.name) && c.typeId != []
    && (c.summary.None? || IsTrimmed(c.summary.value))
    && (c.coverImageUrl.None? || c.coverImageUrl.value != [])
  }

  /**
   * Submitting the edit dialog unchanged sends the card's own values back,
   * provided they are already in the shape the dialog produces (trimmed,
   * no empty strings) and a stored cover passes the browser's URL check.
   */
  lemma UnchangedEditRoundTrip(c: Card, urlValid: string -> bool)
    requires InDialogShape(c)
    requires c.coverImageUrl.Some? ==> urlValid(c.coverImageUrl.value)
    ensures EditSubmission(Some(c), FieldsOf(c), urlValid) ==
              Send(CardUpdate(c.name, c.summary, c.typeId, c.folderId, c.coverImageUrl))
  {
    var f := FieldsOf(c);
    NameAccepted(c);
    OptionalTextRoundTrip(c.summary);
    CoverRoundTrip(c.coverImageUrl);
    assert EditSubmission(Some(c), f, urlValid) ==
             Send(CardUpdate(Trim(f.name), TrimmedOrNull(f.summary), f.typeId, f.folderId,
                             EmptyToNull(f.coverImageUrl)));
  }

  lemma NameAccepted(c: Card)
    requires InDialogShape(c)
    ensures CheckFields(FieldsOf(c)) == None && Trim(c.name) == c.name
  {
    TrimKeepsTrimmed(c.name);
  }

  lemma CoverRoundTrip(s: Option<string>)
    requires s.None? || s.value != []
    ensures EmptyToNull(NullToEmpty(s)) == s
  {
  }

  /** An optional text that is missing or trimmed and non-empty survives `value || ''` then `trim() || null`. */
  lemma OptionalTextRoundTrip(s: Option<string>)
    requires s.None? || IsTrimmed(s.value)
    ensures TrimmedOrNull(NullToEmpty(s)) == s
  {
    if s.None? {
      assert AllSpace(NullToEmpty(s));
    } else {
      TrimKeepsTrimmed(s.value);
    }
  }

  /**
   * A cover the preview could not load is cleared, and such a form is never
   * blocked by the URL check and sends no cover.
   */
  lemma ClearedCoverSentAsNull(worldId: Id, card: Option<Card>, f: CardFields, urlValid: string -> bool)
    requires f.coverImageUrl == []
    ensures !CreateSubmission(worldId, f, urlValid).Blocked? && !EditSubmission(card, f, urlValid).Blocked?
    ensures CreateSubmission(worldId, f, urlValid).Send? ==> CreateSubmission(worldId, f, urlValid).payload.coverImageUrl.None?
    ensures EditSubmission(card, f, urlValid).Send? ==> EditSubmission(card, f, urlValid).payload.coverImageUrl.None?
  {
  }

  class CreateCardForm {
    var fields: CardFields

    constructor(selectedFolderId: Option<Id>)
      ensures fields == BlankFields.(folderId := NonEmptyId(selectedFolderId))
    {
      fields := BlankFields.(folderId := NonEmptyId(selectedFolderId));
    }

    /**
     * The reset on opening: empty name, summary and cover, the first card
     * type preselected (or none), and the selected folder (or none).
     */
    method Open(cardTypeIds: seq<Id>, selectedFolderId: Option<Id>)
      modifies this
      ensures fields.name == [] && fields.summary == [] && fields.coverImageUrl == []
      ensures fields.typeId == (if |cardTypeIds| > 0 then cardTypeIds[0] else [])
      ensures fields.folderId == NonEmptyId(selectedFolderId)
    {
      var typeId: Id := if |cardTypeIds| > 0 then cardTypeIds[0] else [];
      fields := CardFields("", "", typeId, NonEmptyId(selectedFolderId), "");
    }

    /** The cover preview's `onError`: an image that does not load clears the cover. */
    method CoverLoadFailed()
      modifies this
      ensures fields == old(fields).(coverImageUrl := "")
    {
      fields := fields.(coverImageUrl := "");
    }
  }

  /** `id || null` */
  function NonEmptyId(id: Option<Id>): (r: Option<Id>)
    ensures r.Some? <==> id.Some? && id.value != []
    ensures r.Some? ==> r == id
  {
    if id.Some? && id.value != [] then id else None
  }

  class EditCardForm {
    var fields: CardFields

    constructor()
      ensures fields == BlankFields
    {
      fields := BlankFields;
    }

    /** The effect run when the dialog opens, closes or gets another card. */
    method Sync(isOpen: bool, card: Option<Card>)
      modifies this
      ensures isOpen && card.Some? ==> fields == FieldsOf(card.value)
      ensures !isOpen ==> fields == BlankFields
      ensures isOpen && card.None? ==> fields == old(fields)
    {
      if isOpen && card.Some? {
        fields := FieldsOf(card.value);
      } else if !isOpen {
        fields := BlankFields;
      }
    }

    /** The cover preview's `onError`: an image that does not load clears the cover. */
    method CoverLoadFailed()
      modifies this
      ensures fields == old(fields).(coverImageUrl := "")
    {
      fields := fields.(coverImageUrl := "");
    }
  }
}
