/**
 * The client-side application store: the wizard's state, its setters,
 * `toggleResultSelection`, `reset`, and the subset persisted to browser
 * storage. Each setter is an `Action`, and `Dispatch` is the state after it.
 */
module AppStore {
  import opened Wrappers
  import opened Types

  /** A browser `File` handle; only its identity matters to the store. */
  datatype UploadedFile = UploadedFile(name: string, size: nat)

  datatype AppState = AppState(
    currentStep: int,
    entryType: Option<EntryType>,
    searchKeyword: string,
    searchResults: seq<SearchResult>,
    uploadedFile: Option<UploadedFile>,
    uploadedText: string,
    uploadedImageUrl: string,
    selectedTemplate: Option<Template>,
    generatedContent: Option<map<string, string>>,
    imageUrl: Option<string>,
    imageStyle: ImageStyle,
    cardSpec: CardSpec,
    isLoading: bool,
    loadingMessage: string,
    sources: seq<string>)

  /** The store's data fields, one constructor per field of `AppState`. */
  datatype Field =
    | StepField | EntryTypeField | KeywordField | ResultsField | FileField
    | TextField | UploadedImageField | SelectedTemplateField | ContentField | ImageUrlField
    | ImageStyleField | CardSpecField | LoadingField | LoadingMessageField | SourcesField

  /** The store's actions: one per setter, plus the selection toggle and `reset`. */
  datatype Action =
    | SetStep(step: int)
    | SetEntryType(entryType: EntryType)
    | SetSearchKeyword(keyword: string)
    | SetSearchResults(results: seq<SearchResult>)
    | ToggleResultSelection(id: string)
    | SetUploadedFile(file: Option<UploadedFile>)
    | SetUploadedText(text: string)
    | SetUploadedImageUrl(url: string)
    | SetSelectedTemplate(template: Template)
    | SetGeneratedContent(content: map<string, string>)
    | SetImageUrl(imageUrl: Option<string>)
    | SetImageStyle(style: ImageStyle)
    | SetCardSpec(spec: CardSpec)
    | SetIsLoading(loading: bool)
    | SetLoadingMessage(message: string)
    | SetSources(sources: seq<string>)
    | Reset

  /** The state a fresh store starts in, and the one `reset` restores. */
  function Initial(): (s: AppState)
    ensures s.currentStep == 0 && s.entryType.None?
    ensures s.imageStyle == Minimal && s.cardSpec == Xiaohongshu
    ensures s.searchResults == [] && s.sources == []
    ensures s.searchKeyword == "" && s.uploadedText == "" && s.uploadedImageUrl == "" && s.loadingMessage == ""
    ensures s.uploadedFile.None? && s.selectedTemplate.None? && s.generatedContent.None? && s.imageUrl.None?
    ensures !s.isLoading
  {
    AppState(0, None, "", [], None, "", "", None, None, None, Minimal, Xiaohongshu, false, "", [])
  }

  /** `s` and `t` hold the same value in field `f`. */
  predicate Agree(s: AppState, t: AppState, f: Field) {
    match f
    case StepField => s.currentStep == t.currentStep
    case EntryTypeField => s.entryType == t.entryType
    case KeywordField => s.searchKeyword == t.searchKeyword
    case ResultsField => s.searchResults == t.searchResults
    case FileField => s.uploadedFile == t.uploadedFile
    case TextField => s.uploadedText == t.uploadedText
    case UploadedImageField => s.uploadedImageUrl == t.uploadedImageUrl
    case SelectedTemplateField => s.selectedTemplate == t.selectedTemplate
    case ContentField => s.generatedContent == t.generatedContent
    case ImageUrlField => s.imageUrl == t.imageUrl
    case ImageStyleField => s.imageStyle == t.imageStyle
    case CardSpecField => s.cardSpec == t.cardSpec
    case LoadingField => s.isLoading == t.isLoading
    case LoadingMessageField => s.loadingMessage == t.loadingMessage
    case SourcesField => s.sources == t.sources
  }

  /** Agreeing on every field is being the same state. */
  lemma AgreeEverywhere(s: AppState, t: AppState)
    requires forall f: Field :: Agree(s, t, f)
    ensures s == t
  {
    assert Agree(s, t, StepField) && Agree(s, t, EntryTypeField) && Agree(s, t, KeywordField);
    assert Agree(s, t, ResultsField) && Agree(s, t, FileField) && Agree(s, t, TextField);
    assert Agree(s, t, UploadedImageField) && Agree(s, t, SelectedTemplateField) && Agree(s, t, ContentField);
    assert Agree(s, t, ImageUrlField) && Agree(s, t, ImageStyleField) && Agree(s, t, CardSpecField);
    assert Agree(s, t, LoadingField) && Agree(s, t, LoadingMessageField) && Agree(s, t, SourcesField);
  }

  /** The one field an action other than `reset` writes. */
  function Written(a: Action): Field
    requires !a.Reset?
  {
    match a
    case SetStep(_) => StepField
    case SetEntryType(_) => EntryTypeField
    case SetSearchKeyword(_) => KeywordField
    case SetSearchResults(_) => ResultsField
    case ToggleResultSelection(_) => ResultsField
    case SetUploadedFile(_) => FileField
    case SetUploadedText(_) => TextField
    case SetUploadedImageUrl(_) => UploadedImageField
    case SetSelectedTemplate(_) => SelectedTemplateField
    case SetGeneratedContent(_) => ContentField
    case SetImageUrl(_) => ImageUrlField
    case SetImageStyle(_) => ImageStyleField
    case SetCardSpec(_) => CardSpecField
    case SetIsLoading(_) => LoadingField
    case SetLoadingMessage(_) => LoadingMessageField
    case SetSources(_) => SourcesField
  }

  /**
   * `toggleResultSelection(id)`: negates `selected` on every result with that
   * id (an absent flag counts as false) and leaves every other result as it was.
   */
  function ToggleSelection(rs: seq<SearchResult>, id: string): (out: seq<SearchResult>)
    ensures |out| == |rs|
    ensures forall i | 0 <= i < |rs| && rs[i].id == id ::
      out[i] == rs[i].(selected := Some(!IsSelected(rs[i])))
    ensures forall i | 0 <= i < |rs| && rs[i].id != id :: out[i] == rs[i]
  {
    if |rs| == 0 then []
    else
      var r := rs[0];
      var head := if r.id == id then r.(selected := Some(!IsSelected(r))) else r;
      [head] + ToggleSelection(rs[1..], id)
  }

  /**
   * Toggling the same id twice restores every result's selection, reading an
   * absent flag as false: the toggled results end with an explicit flag
   * equal to their original truth value, the others are untouched.
   */
  lemma ToggleTwice(rs: seq<SearchResult>, id: string)
    ensures var twice := ToggleSelection(ToggleSelection(rs, id), id);
      && |twice| == |rs|
      && (forall i | 0 <= i < |rs| :: IsSelected(twice[i]) == IsSelected(rs[i]))
      && (forall i | 0 <= i < |rs| :: twice[i] == rs[i].(selected := twice[i].selected))
      && (forall i | 0 <= i < |rs| && rs[i].selected.Some? :: twice[i] == rs[i])
  {
    var once := ToggleSelection(rs, id);
    var twice := ToggleSelection(once, id);
    forall i | 0 <= i < |rs|
      ensures IsSelected(twice[i]) == IsSelected(rs[i])
      ensures twice[i] == rs[i].(selected := twice[i].selected)
      ensures rs[i].selected.Some? ==> twice[i] == rs[i]
    {
      assert once[i].id == rs[i].id;
      if rs[i].id == id {
        assert once[i] == rs[i].(selected := Some(!IsSelected(rs[i])));
        assert IsSelected(once[i]) == !IsSelected(rs[i]);
        assert once[i].id == id;
        assert twice[i] == once[i].(selected := Some(!IsSelected(once[i])));
        assert twice[i] == rs[i].(selected := Some(IsSelected(rs[i])));
        if rs[i].selected.Some? {
          var r := rs[i];
          assert r.selected == Some(IsSelected(r)) by {
            if r.selected.value { assert IsSelected(r); } else { assert !IsSelected(r); }
          }
          assert r.(selected := Some(IsSelected(r))) == r;
        }
      }
    }
  }

  /** The state after one action. */
  function Dispatch(s: AppState, a: Action): (t: AppState)
    ensures a.Reset? ==> t == Initial()
    ensures !a.Reset? ==> forall f: Field | f != Written(a) :: Agree(s, t, f)
    ensures a.SetStep? ==> t.currentStep == a.step
    ensures a.SetEntryType? ==> t.entryType == Some(a.entryType)
    ensures a.SetSearchKeyword? ==> t.searchKeyword == a.keyword
    ensures a.SetSearchResults? ==> t.searchResults == a.results
    ensures a.ToggleResultSelection? ==> t.searchResults == ToggleSelection(s.searchResults, a.id)
    ensures a.SetUploadedFile? ==> t.uploadedFile == a.file
    ensures a.SetUploadedText? ==> t.uploadedText == a.text
    ensures a.SetUploadedImageUrl? ==> t.uploadedImageUrl == a.url
    ensures a.SetSelectedTemplate? ==> t.selectedTemplate == Some(a.template)
    ensures a.SetGeneratedContent? ==> t.generatedContent == Some(a.content)
    ensures a.SetImageUrl? ==> t.imageUrl == a.imageUrl
    ensures a.SetImageStyle? ==> t.imageStyle == a.style
    ensures a.SetCardSpec? ==> t.cardSpec == a.spec
    ensures a.SetIsLoading? ==> t.isLoading == a.loading
    ensures a.SetLoadingMessage? ==> t.loadingMessage == a.message
    ensures a.SetSources? ==> t.sources == a.sources
  {
    match a
    case SetStep(step) => s.(currentStep := step)
    case SetEntryType(e) => s.(entryType := Some(e))
    case SetSearchKeyword(k) => s.(searchKeyword := k)
    case SetSearchResults(rs) => s.(searchResults := rs)
    case ToggleResultSelection(id) => s.(searchResults := ToggleSelection(s.searchResults, id))
    case SetUploadedFile(file) => s.(uploadedFile := file)
    case SetUploadedText(text) => s.(uploadedText := text)
    case SetUploadedImageUrl(url) => s.(uploadedImageUrl := url)
    case SetSelectedTemplate(template) => s.(selectedTemplate := Some(template))
    case SetGeneratedContent(content) => s.(generatedContent := Some(content))
    case SetImageUrl(url) => s.(imageUrl := url)
    case SetImageStyle(style) => s.(imageStyle := style)
    case SetCardSpec(spec) => s.(cardSpec := spec)
    case SetIsLoading(loading) => s.(isLoading := loading)
    case SetLoadingMessage(message) => s.(loadingMessage := message)
    case SetSources(sources) => s.(sources := sources)
    case Reset => Initial()
  }

  /** Setting a field to the value it already holds changes nothing. */
  lemma SetterIdempotent(s: AppState, a: Action)
    requires !a.Reset? && !a.ToggleResultSelection?
    ensures Dispatch(Dispatch(s, a), a) == Dispatch(s, a)
  {
    var t := Dispatch(s, a);
    var u := Dispatch(t, a);
    forall f: Field ensures Agree(t, u, f) {
    }
    AgreeEverywhere(t, u);
  }

  /** `reset` forgets everything: the state after it does not depend on the state before. */
  lemma ResetForgets(s: AppState, t: AppState)
    ensures Dispatch(s, Reset) == Dispatch(t, Reset)
  {
  }

  // ---------------------------------------------------------------------------
  // Persistence

  /** The part of the state written to browser storage. */
  datatype Persisted = Persisted(entryType: Option<EntryType>, cardSpec: CardSpec, imageStyle: ImageStyle)

  /** `partialize`: exactly the entry type, card format and image style. */
  function Partialize(s: AppState): (r: Persisted)
    ensures r.entryType == s.entryType && r.cardSpec == s.cardSpec && r.imageStyle == s.imageStyle
  {
    Persisted(s.entryType, s.cardSpec, s.imageStyle)
  }

  /** Two states persist the same way exactly when they agree on the three persisted fields. */
  lemma PartializeExactly(s: AppState, t: AppState)
    ensures Partialize(s) == Partialize(t) <==>
      Agree(s, t, EntryTypeField) && Agree(s, t, CardSpecField) && Agree(s, t, ImageStyleField)
  {
  }

  /** Only the three persisted setters and `reset` can change what is stored. */
  lemma PersistedChangesOnlyThrough(s: AppState, a: Action)
    requires Partialize(Dispatch(s, a)) != Partialize(s)
    ensures a.SetEntryType? || a.SetCardSpec? || a.SetImageStyle? || a.Reset?
  {
  }
}
