/**
 * The portfolio form component: its state cells and its event handlers.
 *
 * Each handler runs as one step. The two AI services are not called from
 * here: what the call returned (a value, or a failure that may carry a
 * message) is a parameter of the handler, and the request the handler
 * would send is its result.
 */
module Form {
  import opened Wrappers
  import opened Text
  import opened Parsing
  import opened Profile
  import opened Export

  /** A notification as the toast hook receives it. */
  datatype Toast = Toast(title: string, description: string, destructive: bool)

  /** How an AI call ended: with a value, or by throwing an error whose message may be missing. */
  datatype Outcome<T> = Success(value: T) | Failure(message: Option<string>)

  /** The profile sent to the bio service; the age stays text (its numeric conversion is not modelled). */
  datatype BioRequest = BioRequest(
    name: string,
    age: string,
    occupation: string,
    contactInformation: string,
    shortBio: string,
    skills: seq<string>,
    projectDescriptions: seq<string>)

  /**
   * The bio request built from the form: the scalar fields as typed, the two
   * list fields parsed, one entry per separator-delimited piece.
   */
  function BioRequestOf(d: FormData): (r: BioRequest)
    ensures r.name == d.name && r.age == d.age && r.occupation == d.occupation
    ensures r.contactInformation == d.contactInformation && r.shortBio == d.shortBio
    ensures |r.skills| == Count(d.skills, ',') + 1
    ensures |r.projectDescriptions| == Count(d.projectDescriptions, '\n') + 1
    ensures forall i :: 0 <= i < |r.skills| ==> NoOuterWhitespace(r.skills[i])
    ensures forall i :: 0 <= i < |r.projectDescriptions| ==> NoOuterWhitespace(r.projectDescriptions[i])
    ensures r.skills == ParseSkills(d.skills)
    ensures r.projectDescriptions == ParseProjectDescriptions(d.projectDescriptions)
  {
    BioRequest(d.name, d.age, d.occupation, d.contactInformation, d.shortBio,
               ParseSkills(d.skills), ParseProjectDescriptions(d.projectDescriptions))
  }

  const BioErrorFallback := "Failed to enhance bio. Please try again."
  const DescriptionsErrorFallback := "Failed to suggest project descriptions. Please try again."

  /** `error.message || fallback`: the message when there is a non-empty one, the fallback otherwise. */
  function ErrorText(message: Option<string>, fallback: string): (text: string)
    ensures message.Some? && message.value != "" ==> text == message.value
    ensures message.None? || message.value == "" ==> text == fallback
  {
    match message
    case Some(m) => if m != "" then m else fallback
    case None => fallback
  }

  /** The destructive "Error" toast of a failed AI call. */
  function ErrorToast(message: Option<string>, fallback: string): (t: Toast)
    ensures t.title == "Error" && t.destructive
    ensures message.Some? && message.value != "" ==> t.description == message.value
    ensures message.None? || message.value == "" ==> t.description == fallback
  {
    Toast("Error", ErrorText(message, fallback), true)
  }

  const PreviewToast :=
    Toast("Live Preview Updated", "The portfolio preview has been updated with your latest changes.", false)
  const DownloadToast :=
    Toast("HTML Portfolio Downloaded", "Your portfolio has been downloaded as an HTML file.", false)

  class PortfolioForm {
    var formData: FormData
    var previewData: FormData
    var isEnhanceBioOpen: bool
    var enhancedBio: string
    var isSuggestProjectDescriptionsOpen: bool
    var suggestedProjectDescriptions: seq<string>
    /** Every notification shown so far, oldest first. */
    var toasts: seq<Toast>

    /** Both records empty, both dialogs closed, no AI result yet. */
    constructor()
      ensures formData == InitialFormData && previewData == InitialFormData
      ensures !isEnhanceBioOpen && enhancedBio == ""
      ensures !isSuggestProjectDescriptionsOpen && suggestedProjectDescriptions == []
      ensures toasts == []
    {
      formData := InitialFormData;
      previewData := InitialFormData;
      isEnhanceBioOpen := false;
      enhancedBio := "";
      isSuggestProjectDescriptionsOpen := false;
      suggestedProjectDescriptions := [];
      toasts := [];
    }

    /** An input changed: the named field takes the new value; no other cell of the state is touched. */
    method HandleChange(field: Field, value: string)
      modifies this`formData
      ensures formData == old(formData).With(field, value)
    {
      formData := formData.With(field, value);
    }

    /** The skills input's handler; it does exactly what `HandleChange` does. */
    method HandleSkillsChange(field: Field, value: string)
      modifies this`formData
      ensures formData == old(formData).With(field, value)
    {
      HandleChange(field, value);
    }

    /** The project-descriptions input's handler; it does exactly what `HandleChange` does. */
    method HandleProjectDescriptionsChange(field: Field, value: string)
      modifies this`formData
      ensures formData == old(formData).With(field, value)
    {
      HandleChange(field, value);
    }

    /** "Update Live Preview": the preview becomes a snapshot of the form, which itself is unchanged. */
    method HandleLivePreview()
      modifies this`previewData, this`toasts
      ensures previewData == formData
      ensures toasts == old(toasts) + [PreviewToast]
    {
      previewData := formData;
      toasts := toasts + [PreviewToast];
    }

    /**
     * "Enhance Bio with AI": opens the dialog, sends the bio request built from
     * the form (not the preview), and on success stores the returned bio. On
     * failure the previous bio stays and an error toast carries the message.
     */
    method HandleEnhanceBio(outcome: Outcome<string>) returns (request: BioRequest)
      modifies this`isEnhanceBioOpen, this`enhancedBio, this`toasts
      ensures isEnhanceBioOpen
      ensures request == BioRequestOf(formData)
      ensures outcome.Success? ==> enhancedBio == outcome.value && toasts == old(toasts)
      ensures outcome.Failure? ==>
        enhancedBio == old(enhancedBio) &&
        toasts == old(toasts) + [ErrorToast(outcome.message, BioErrorFallback)]
    {
      isEnhanceBioOpen := true;
      request := BioRequestOf(formData);
      match outcome
      case Success(bio) =>
        enhancedBio := bio;
      case Failure(message) =>
        toasts := toasts + [ErrorToast(message, BioErrorFallback)];
    }

    /**
     * "Suggest Project Descriptions with AI": opens the dialog, sends the
     * parsed project descriptions of the form, and on success stores the
     * suggestions as returned. On failure the previous suggestions stay.
     */
    method HandleSuggestProjectDescriptions(outcome: Outcome<seq<string>>) returns (sent: seq<string>)
      modifies this`isSuggestProjectDescriptionsOpen, this`suggestedProjectDescriptions, this`toasts
      ensures isSuggestProjectDescriptionsOpen
      ensures sent == ParseProjectDescriptions(formData.projectDescriptions)
      ensures outcome.Success? ==> suggestedProjectDescriptions == outcome.value && toasts == old(toasts)
      ensures outcome.Failure? ==>
        suggestedProjectDescriptions == old(suggestedProjectDescriptions) &&
        toasts == old(toasts) + [ErrorToast(outcome.message, DescriptionsErrorFallback)]
    {
      isSuggestProjectDescriptionsOpen := true;
      sent := ParseProjectDescriptions(formData.projectDescriptions);
      match outcome
      case Success(suggestions) =>
        suggestedProjectDescriptions := suggestions;
      case Failure(message) =>
        toasts := toasts + [ErrorToast(message, DescriptionsErrorFallback)];
    }

    /** "Download HTML": the page and its file name, both made from the preview snapshot alone. */
    method HandleDownloadHtml() returns (html: string, filename: string)
      modifies this`toasts
      ensures previewData == old(previewData)
      ensures html == HtmlDocument(previewData)
      ensures filename == DownloadFilename(previewData.name)
      ensures toasts == old(toasts) + [DownloadToast]
    {
      html := HtmlDocument(previewData);
      filename := DownloadFilename(previewData.name);
      toasts := toasts + [DownloadToast];
    }

    /** The enhanced-bio dialog's open-change callback and its Close button. */
    method SetEnhanceBioOpen(open: bool)
      modifies this`isEnhanceBioOpen
      ensures isEnhanceBioOpen == open
    {
      isEnhanceBioOpen := open;
    }

    /** The suggestions dialog's open-change callback and its Close button. */
    method SetSuggestProjectDescriptionsOpen(open: bool)
      modifies this`isSuggestProjectDescriptionsOpen
      ensures isSuggestProjectDescriptionsOpen == open
    {
      isSuggestProjectDescriptionsOpen := open;
    }

    /** The preview card, rendered from the snapshot and never from the form being edited. */
    function PreviewCard(): (v: PreviewView)
      reads this
      ensures v == Preview(previewData)
    {
      Preview(previewData)
    }
  }

  /** Types every field of `d` into a fresh form, one change event per field. */
  method FillForm(d: FormData) returns (form: PortfolioForm)
    ensures fresh(form)
    ensures form.formData == d && form.previewData == InitialFormData
  {
    form := new PortfolioForm();
    form.HandleChange(Name, d.name);
    form.HandleChange(Age, d.age);
    form.HandleChange(Occupation, d.occupation);
    form.HandleChange(ContactInformation, d.contactInformation);
    form.HandleChange(ShortBio, d.shortBio);
    form.HandleSkillsChange(Skills, d.skills);
    form.HandleProjectDescriptionsChange(ProjectDescriptions, d.projectDescriptions);
  }

  /**
   * Fill the form with `d`, update the preview, then edit one field and
   * download without previewing again: the file holds `d`, not the edit.
   */
  method ExportIgnoresUnsavedEdit(d: FormData, field: Field, value: string) returns (html: string, filename: string)
    ensures html == HtmlDocument(d)
    ensures filename == DownloadFilename(d.name)
  {
    var form := FillForm(d);
    form.HandleLivePreview();
    assert form.previewData == d;
    form.HandleChange(field, value);
    html, filename := form.HandleDownloadHtml();
  }

  /**
   * A failed bio call after a successful one leaves the form and the earlier
   * bio as they were; only the dialog opens and an error toast shows.
   */
  method FailedEnhanceKeepsState(d: FormData, earlier: string, message: Option<string>)
    returns (bio: string, kept: FormData, shown: Toast)
    ensures bio == earlier && kept == d
    ensures shown.destructive && shown.title == "Error"
    ensures shown.description == (if message.Some? && message.value != "" then message.value else BioErrorFallback)
  {
    var form := FillForm(d);
    var _ := form.HandleEnhanceBio(Success(earlier));
    var _ := form.HandleEnhanceBio(Failure(message));
    bio, kept, shown := form.enhancedBio, form.formData, form.toasts[|form.toasts| - 1];
  }
}
