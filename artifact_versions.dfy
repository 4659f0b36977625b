/**
 * The version navigation of components/artifact.tsx: the artifact panel
 * shows one of the saved versions of a document, picked by
 * `currentVersionIndex`, in `edit` or `diff` mode. This module also covers
 * the lookup of a version's content and the check that replaces the
 * placeholder text with "".
 */
module ArtifactVersions {
  import opened Options
  import opened Text

  /** A saved version of the document; its content may be null. */
  datatype Document = Document(id: string, content: Option<string>)

  datatype Mode = Edit | Diff

  datatype VersionAction = Next | Prev | Toggle | Latest

  /** The text a new document starts with; the panel shows it as an empty document. */
  const Placeholder := "记录你的待办事项，帮助你成为高效人士"

  /**
   * The content the panel shows for a fetched document's content: "" when
   * it is null, empty, only white space, or the placeholder once trimmed,
   * and the content unchanged otherwise.
   */
  function NormalisedContent(content: Option<string>): (r: string)
    ensures r == "" <==> content.None? || Trim(content.value) == "" || Trim(content.value) == Placeholder
    ensures r != "" ==> r == content.value
  {
    var c := content.GetOr("");
    var isEmpty := c == "" || Trim(c) == "" || Trim(c) == Placeholder;
    if isEmpty then "" else c
  }

  /** Normalising a normalised content changes nothing. */
  lemma NormalisedContentIdempotent(content: Option<string>)
    ensures NormalisedContent(Some(NormalisedContent(content))) == NormalisedContent(content)
  {
  }

  /** A content is shown as "" exactly when it holds nothing but white space, or is the placeholder. */
  lemma NormalisedContentBlank(c: string)
    ensures NormalisedContent(Some(c)) == "" <==> AllSpaces(c) || Trim(c) == Placeholder
  {
    TrimEmpty(c);
  }

  /**
   * The index and mode after `handleVersionChange(action)`. Nothing changes
   * while the list of versions is not loaded.
   */
  function VersionStep(documents: Option<seq<Document>>, index: int, mode: Mode, action: VersionAction): (int, Mode) {
    match documents
    case None => (index, mode)
    case Some(docs) =>
      match action
      case Latest => (|docs| - 1, Edit)
      case Toggle => (index, if mode == Edit then Diff else Edit)
      case Prev => (if index > 0 then index - 1 else index, mode)
      case Next => (if index < |docs| - 1 then index + 1 else index, mode)
  }

  /** The state of the version navigation. */
  class VersionView {
    /** The fetched versions, oldest first; None while they are not loaded. */
    var documents: Option<seq<Document>>
    var currentVersionIndex: int
    var mode: Mode

    /** The initial state: no version selected (-1), edit mode. */
    constructor (documents: Option<seq<Document>>)
      ensures this.documents == documents && currentVersionIndex == -1 && mode == Edit
    {
      this.documents := documents;
      currentVersionIndex := -1;
      mode := Edit;
    }

    /** `handleVersionChange(type)`. */
    method HandleVersionChange(action: VersionAction)
      modifies this
      ensures (currentVersionIndex, mode) == VersionStep(documents, old(currentVersionIndex), old(mode), action)
      ensures documents == old(documents)
    {
      if documents.None? {
        return;
      }
      var docs := documents.value;
      if action == Latest {
        currentVersionIndex := |docs| - 1;
        mode := Edit;
      }
      if action == Toggle {
        mode := if mode == Edit then Diff else Edit;
      }
      if action == Prev {
        if currentVersionIndex > 0 {
          currentVersionIndex := currentVersionIndex - 1;
        }
      } else if action == Next && currentVersionIndex < |docs| - 1 {
        currentVersionIndex := currentVersionIndex + 1;
      }
    }

    /** `getDocumentContentById(index)`: the version's content, or "" when there is none to show. */
    function GetDocumentContentById(index: int): (r: string)
      reads this
      ensures InRange(documents, index) && documents.value[index].content.Some? ==>
                r == documents.value[index].content.value
      ensures documents.None? || index < 0 || |documents.value| <= index ==> r == ""
      ensures InRange(documents, index) && documents.value[index].content.None? ==> r == ""
    {
      match documents
      case None => ""
      case Some(docs) =>
        if 0 <= index < |docs| then docs[index].content.GetOr("") else ""
    }

    /** `isCurrentVersion`: the last version is selected, or there is no version at all. */
    function IsCurrentVersion(): (r: bool)
      reads this
      ensures r <==> documents.None? || |documents.value| == 0 || currentVersionIndex == |documents.value| - 1
    {
      if documents.Some? && |documents.value| > 0 then currentVersionIndex == |documents.value| - 1 else true
    }
  }

  // ---------------------------------------------------------------------
  // What navigation promises

  /** The index is a valid position in a non-empty list of versions. */
  predicate InRange(documents: Option<seq<Document>>, index: int) {
    documents.Some? && 0 <= index < |documents.value|
  }

  /** Starting from a valid position, every action leaves a valid position. */
  lemma StepKeepsInRange(documents: Option<seq<Document>>, index: int, mode: Mode, action: VersionAction)
    requires InRange(documents, index)
    ensures InRange(documents, VersionStep(documents, index, mode, action).0)
  {
  }

  /** Any run of actions from a valid position stays at valid positions. */
  lemma {:induction false} StepsKeepInRange(documents: Option<seq<Document>>, index: int, mode: Mode, actions: seq<VersionAction>)
    requires InRange(documents, index)
    ensures InRange(documents, Steps(documents, index, mode, actions).0)
    decreases actions
  {
    if actions != [] {
      var (i, m) := VersionStep(documents, index, mode, actions[0]);
      StepKeepsInRange(documents, index, mode, actions[0]);
      StepsKeepInRange(documents, i, m, actions[1..]);
    }
  }

  /** The index and mode after a run of actions, in order. */
  function Steps(documents: Option<seq<Document>>, index: int, mode: Mode, actions: seq<VersionAction>): (int, Mode)
    decreases actions
  {
    if actions == [] then (index, mode)
    else
      var (i, m) := VersionStep(documents, index, mode, actions[0]);
      Steps(documents, i, m, actions[1..])
  }

  /**
   * `prev` moves back by one exactly when the index is above 0, `next`
   * moves forward by one exactly when the index is below the last
   * position, and neither touches the mode.
   */
  lemma PrevNext(docs: seq<Document>, index: int, mode: Mode)
    ensures var (i, m) := VersionStep(Some(docs), index, mode, Prev);
            m == mode && (i == index - 1 <==> index > 0) && (index <= 0 ==> i == index)
    ensures var (i, m) := VersionStep(Some(docs), index, mode, Next);
            m == mode && (i == index + 1 <==> index < |docs| - 1) && (index >= |docs| - 1 ==> i == index)
  {
  }

  /** `next` then `prev` from below the last position returns to where it started. */
  lemma NextThenPrev(docs: seq<Document>, index: int, mode: Mode)
    requires 0 <= index < |docs| - 1
    ensures Steps(Some(docs), index, mode, [Next, Prev]) == (index, mode)
  {
    assert [Next, Prev][1..] == [Prev];
  }

  /** `latest` selects the last version in edit mode, which is then the current version. */
  lemma LatestIsCurrent(docs: seq<Document>, index: int, mode: Mode)
    ensures VersionStep(Some(docs), index, mode, Latest) == (|docs| - 1, Edit)
    ensures |docs| > 0 ==> InRange(Some(docs), |docs| - 1)
  {
  }

  /** `toggle` flips the mode and keeps the index; toggling twice restores the state. */
  lemma ToggleInvolution(documents: Option<seq<Document>>, index: int, mode: Mode)
    requires documents.Some?
    ensures VersionStep(documents, index, mode, Toggle).0 == index
    ensures VersionStep(documents, index, mode, Toggle).1 != mode
    ensures Steps(documents, index, mode, [Toggle, Toggle]) == (index, mode)
  {
    assert [Toggle, Toggle][1..] == [Toggle];
  }

  /** While the versions are not loaded, no run of actions changes anything. */
  lemma {:induction false} NotLoadedNoOp(index: int, mode: Mode, actions: seq<VersionAction>)
    ensures Steps(None, index, mode, actions) == (index, mode)
    decreases actions
  {
    if actions != [] {
      NotLoadedNoOp(index, mode, actions[1..]);
    }
  }

  /** At the last version `next` changes nothing; `latest` changes only the mode. */
  lemma CurrentVersionNextNoOp(docs: seq<Document>, mode: Mode)
    requires |docs| > 0
    ensures VersionStep(Some(docs), |docs| - 1, mode, Next) == (|docs| - 1, mode)
    ensures VersionStep(Some(docs), |docs| - 1, mode, Latest) == (|docs| - 1, Edit)
  {
  }
}
