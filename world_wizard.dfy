/**
 * The four-step "create world" wizard
 * (src/components/worlds/create-world-modal.tsx): its step machine, the
 * per-step guard of the Next button, the template shortcut, and the record
 * it hands to the service.
 */
module WorldWizard {
  import opened Text
  import opened Entities

  datatype Step = Welcome | Template | Details | VisibilityStep

  /** Position of a step in the progress indicator. */
  function Index(s: Step): nat
  {
    match s
    case Welcome => 0
    case Template => 1
    case Details => 2
    case VisibilityStep => 3
  }

  /** `getNextStep`: one step forward, staying on the last one. */
  function Next(s: Step): (r: Step)
    ensures Index(r) == if Index(s) < 3 then Index(s) + 1 else 3
  {
    match s
    case Welcome => Template
    case Template => Details
    case Details => VisibilityStep
    case VisibilityStep => s
  }

  /** `getPrevStep`: one step back, staying on the first one. */
  function Prev(s: Step): (r: Step)
    ensures Index(r) == if Index(s) > 0 then Index(s) - 1 else 0
  {
    match s
    case Template => Welcome
    case Details => Template
    case VisibilityStep => Details
    case Welcome => s
  }

  /** The index determines the step. */
  lemma IndexInjective(a: Step, b: Step)
    ensures Index(a) == Index(b) ==> a == b
  {
  }

  /** Back undoes Next everywhere but on the last step, and Next undoes Back everywhere but on the first. */
  lemma BackUndoesNext(s: Step)
    ensures s != VisibilityStep ==> Prev(Next(s)) == s
    ensures s != Welcome ==> Next(Prev(s)) == s
  {
    IndexInjective(Prev(Next(s)), s);
    IndexInjective(Next(Prev(s)), s);
  }

  /** Three presses of Next lead from the welcome page to the last step. */
  lemma ThreeStepsToTheEnd()
    ensures Next(Next(Next(Welcome))) == VisibilityStep
  {
  }

  /** The steps in the order the progress indicator lists them. */
  const StepOrder: seq<Step> := [Welcome, Template, Details, VisibilityStep]

  /** A step of the progress indicator is drawn as completed when the wizard is past it. */
  predicate Completed(current: Step, s: Step)
  {
    Index(current) > Index(s)
  }

  /** The steps drawn as completed are exactly those listed before the current one; the current one is not. */
  lemma CompletedAreThoseBefore(current: Step)
    ensures forall i | 0 <= i < |StepOrder| :: Completed(current, StepOrder[i]) <==> i < Index(current)
    ensures !Completed(current, current)
  {
    forall i | 0 <= i < |StepOrder|
      ensures Index(StepOrder[i]) == i
    {
    }
  }

  /** Next draws the step it leaves as completed, except on the last step, where it stays. */
  lemma NextCompletesStep(s: Step)
    ensures Completed(Next(s), s) <==> s != VisibilityStep
  {
  }

  /** A built-in template; `genre` is missing for the "custom" one. */
  datatype WorldTemplate = WorldTemplate(id: string, genre: Option<string>, exampleTitle: string, exampleSummary: string)

  const Templates: seq<WorldTemplate> := [
    WorldTemplate("fantasy", Some("Fantasy"), "The Kingdom of Aethermoor",
      "A magical realm where ancient dragons soar above floating islands and brave heroes seek legendary artifacts."),
    WorldTemplate("scifi", Some("Science Fiction"), "The Nexus Colonies",
      "In the year 2387, humanity has spread across the galaxy, but ancient alien mysteries threaten the peace."),
    WorldTemplate("modern", Some("Modern"), "New Haven City",
      "A bustling metropolis where ordinary people live extraordinary lives, and secrets hide in plain sight."),
    WorldTemplate("historical", Some("Historical"), "The Court of Versailles",
      "Navigate the intrigue and politics of 18th century France in the opulent palace of the Sun King."),
    WorldTemplate("horror", Some("Horror"), "Shadowbrook Township",
      "A seemingly quiet New England town harbors dark secrets that emerge when the fog rolls in."),
    WorldTemplate("romance", Some("Romance"), "Rosewood Academy",
      "An elite boarding school where young hearts discover love, friendship, and the complexities of growing up."),
    WorldTemplate("superhero", Some("Superhero"), "Meridian City",
      "A gleaming metropolis protected by the Guardians Alliance, but new threats emerge from the shadows."),
    WorldTemplate("custom", None, "My World", "A unique world of my own creation...")
  ]

  /** `canProceed` */
  predicate CanProceed(step: Step, selected: Option<WorldTemplate>, title: string)
  {
    match step
    case Welcome => true
    case Template => selected.Some?
    case Details => !IsBlank(title)
    case VisibilityStep => true
  }

  /** Every built-in template fills in a title that lets the details step go on. */
  lemma TemplateTitlesAreNotBlank()
    ensures forall i | 0 <= i < |Templates| :: !IsBlank(Templates[i].exampleTitle)
  {
    forall i | 0 <= i < |Templates|
      ensures !IsBlank(Templates[i].exampleTitle)
    {
      TrimKeepsTrimmed(Templates[i].exampleTitle);
    }
  }

  /** The record `createWorld` receives. */
  datatype NewWorld = NewWorld(
    ownerId: Id,
    title: string,
    summary: Option<string>,
    visibility: Visibility,
    genre: Option<string>)

  /** `handleSubmit`: nothing without a signed-in user or with a blank title. */
  function WorldRequest(user: Option<Id>, title: string, summary: string, genre: string, visibility: Visibility)
    : (r: Option<NewWorld>)
    ensures r.None? <==> user.None? || IsBlank(title)
    ensures r.Some? ==>
      && r.value.ownerId == user.value
      && r.value.title == Trim(title) && r.value.title != []
      && r.value.summary == TrimmedOrNull(summary)
      && r.value.genre == EmptyToNull(genre)
      && r.value.visibility == visibility
  {
    if user.None? || IsBlank(title) then None
    else Some(NewWorld(user.value, Trim(title), TrimmedOrNull(summary), visibility, EmptyToNull(genre)))
  }
  /**
   * The details step lets the user go on exactly for the titles the submit
   * accepts, so a signed-in user who reaches the last step is never refused.
   */
  lemma DetailsGateAgreesWithSubmit(user: Option<Id>, selected: Option<WorldTemplate>, title: string,
                                    summary: string, genre: string, visibility: Visibility)
    requires user.Some?
    ensures CanProceed(Details, selected, title) <==> WorldRequest(user, title, summary, genre, visibility).Some?
  {
  }


  class Wizard {
    var step: Step
    var selectedTemplate: Option<WorldTemplate>
    var title: string
    var summary: string
    var genre: string
    var visibility: Visibility
    var loading: bool

    /** The state `resetForm` restores. */
    predicate IsReset()
      reads this
    {
      && step == Welcome && selectedTemplate == None
      && title == [] && summary == [] && genre == [] && visibility == Private
    }

    constructor()
      ensures IsReset() && !loading
    {
      step := Welcome;
      selectedTemplate := None;
      title := [];
      summary := [];
      genre := [];
      visibility := Private;
      loading := false;
    }

    method ResetForm()
      modifies this
      ensures IsReset() && loading == old(loading)
    {
      step := Welcome;
      selectedTemplate := None;
      title := [];
      summary := [];
      genre := [];
      visibility := Private;
    }

    /** `handleClose`: resets and closes, unless a request is running. */
    method HandleClose() returns (closed: bool)
      modifies this
      ensures closed <==> !old(loading)
      ensures closed ==> IsReset()
      ensures !closed ==> unchanged(this)
      ensures loading == old(loading)
    {
      closed := !loading;
      if closed {
        ResetForm();
      }
    }

    /** Choosing a template fills in its examples and jumps straight to the details step. */
    method SelectTemplate(t: WorldTemplate)
      modifies this
      ensures selectedTemplate == Some(t) && step == Details
      ensures title == t.exampleTitle && summary == t.exampleSummary
      ensures genre == (if t.genre.Some? then t.genre.value else [])
      ensures visibility == old(visibility) && loading == old(loading)
    {
      selectedTemplate := Some(t);
      title := t.exampleTitle;
      summary := t.exampleSummary;
      genre := if t.genre.Some? then t.genre.value else [];
      step := Details;
    }

    /** The Back/Cancel button; it is disabled while a request is running. */
    method PressBack() returns (closed: bool)
      modifies this
      ensures old(loading) ==> !closed && unchanged(this)
      ensures !old(loading) && old(step) == Welcome ==> closed && IsReset()
      ensures !old(loading) && old(step) != Welcome ==>
                !closed && step == Prev(old(step)) && title == old(title) && summary == old(summary)
                && genre == old(genre) && selectedTemplate == old(selectedTemplate)
                && visibility == old(visibility)
      ensures loading == old(loading)
    {
      closed := false;
      if loading {
        return;
      }
      if step == Welcome {
        closed := HandleClose();
      } else {
        step := Prev(step);
      }
    }

    /**
     * The Next/Create button, disabled while loading or when the step's guard
     * fails. On the last step it submits: `user` is the signed-in user and
     * `created` whether the service accepted the new world, after which the
     * form is reset.
     */
    method PressNext(user: Option<Id>, created: bool) returns (request: Option<NewWorld>)
      modifies this
      ensures old(loading) || !CanProceed(old(step), old(selectedTemplate), old(title)) ==>
                request.None? && unchanged(this)
      ensures !old(loading) && CanProceed(old(step), old(selectedTemplate), old(title)) && old(step) != VisibilityStep ==>
                request.None? && step == Next(old(step)) && title == old(title) && summary == old(summary)
                && genre == old(genre) && selectedTemplate == old(selectedTemplate)
                && visibility == old(visibility)
      ensures !old(loading) && old(step) == VisibilityStep ==>
                request == WorldRequest(user, old(title), old(summary), old(genre), old(visibility))
      ensures !old(loading) && old(step) == VisibilityStep && request.None? ==> unchanged(this)
      ensures request.Some? && created ==> IsReset()
      ensures request.Some? && !created ==> unchanged(this)
      ensures loading == old(loading)
    {
      request := None;
      if loading || !CanProceed(step, selectedTemplate, title) {
        return;
      }
      if step != VisibilityStep {
        step := Next(step);
      } else {
        request := WorldRequest(user, title, summary, genre, visibility);
        if request.Some? && created {
          ResetForm();
        }
      }
    }
  }
}
