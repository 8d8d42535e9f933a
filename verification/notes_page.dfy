/**
 * The notes screen: the note editor's save step (title check and comma-separated tag parsing),
 * the mutations with the query keys each one invalidates on success, the choice between
 * create and update, and the text filter over the list.
 */
module NotesPage {
  import opened Wrappers
  import opened Text
  import opened Sequences
  import Api

  /** A note as the list endpoint returns it; `content` is absent there. */
  datatype NoteView = NoteView(id: nat, title: string, content: Option<string>, tags: Option<seq<string>>, isPinned: bool)

  /** The body the editor hands to onSave. */
  datatype NoteInput = NoteInput(title: string, content: string, tags: seq<string>)

  // -----------------------------------------------------------------------------------------
  // Tags in the editor

  predicate NonEmpty(t: string) { t != "" }

  function StripAll(parts: seq<string>): (r: seq<string>)
    ensures |r| == |parts| && forall i :: 0 <= i < |r| ==> r[i] == Strip(parts[i])
  {
    if parts == [] then [] else [Strip(parts[0])] + StripAll(parts[1..])
  }

  /** tags.split(',').map(t => t.trim()).filter(Boolean) */
  function ParseTags(text: string): (r: seq<string>)
    ensures forall t :: t in r ==> t != "" && IsStripped(t) && ',' !in t
  {
    var parts := Split(text, ',');
    var r := Filter(StripAll(parts), NonEmpty);
    assert forall t :: t in r ==> exists i :: 0 <= i < |parts| && t == Strip(parts[i]);
    r
  }

  /** The pieces of tags.join(', '): every tag after the first carries its leading blank. */
  function Spaced(tags: seq<string>): (r: seq<string>)
    ensures |r| == |tags|
  {
    seq(|tags|, i requires 0 <= i < |tags| => if i == 0 then tags[0] else " " + tags[i])
  }

  /** note?.tags?.join(', ') || '': the tag field the editor opens with. */
  function JoinTags(tags: Option<seq<string>>): string {
    if tags.None? then "" else Join(Spaced(tags.value), ',')
  }

  /**
   * Opening a note and saving without touching the tag field gives back the same tags, for
   * tags that are non-empty, trimmed and free of commas (every tag the editor itself produces).
   */
  lemma TagsRoundTrip(tags: seq<string>)
    requires forall t :: t in tags ==> t != "" && IsStripped(t) && ',' !in t
    ensures ParseTags(JoinTags(Some(tags))) == tags
  {
    var pieces := Spaced(tags);
    if |tags| == 0 {
      assert Split("", ',') == [""];
      assert StripAll([""]) == [""];
    } else {
      forall i | 0 <= i < |pieces| ensures ',' !in pieces[i] {
        assert tags[i] in tags;
      }
      SplitJoin(pieces, ',');
      forall i | 0 <= i < |pieces| ensures Strip(pieces[i]) == tags[i] {
        assert tags[i] in tags;
        if i > 0 { StripAfterSpace(tags[i]); }
      }
      assert StripAll(pieces) == tags;
      FilterAll(tags, NonEmpty);
    }
  }

  // -----------------------------------------------------------------------------------------
  // The editor

  const TitleRequired := "Title is required"

  /** The one check handleSave makes: the title is not blank after trimming. */
  predicate TitleGiven(title: string) { Strip(title) != "" }

  /** What handleSave hands to onSave: the trimmed title, the content as typed, the parsed tags. */
  function SaveBody(title: string, content: string, tags: string): (r: NoteInput)
    ensures IsStripped(r.title) && r.content == content
    ensures TitleGiven(title) ==> r.title != ""
  {
    NoteInput(Strip(title), content, ParseTags(tags))
  }

  /** The editor's state: its three fields and whether a save is in flight. */
  datatype EditorState = EditorState(title: string, content: string, tags: string, loading: bool)

  /** The save button is disabled while loading. */
  predicate SaveDisabled(s: EditorState) { s.loading }

  /** The fields an editor opens with: from the note being edited, or empty for a new note. */
  function OpenEditor(note: Option<NoteView>): (s: EditorState)
    ensures !s.loading
    ensures note.None? ==> s.title == "" && s.content == "" && s.tags == ""
  {
    match note
    case None => EditorState("", "", "", false)
    case Some(n) => EditorState(n.title, if n.content.Some? then n.content.value else "", JoinTags(n.tags), false)
  }

  /**
   * The state after `await onSave(...)` as the editor is written: setLoading(false) runs only
   * when onSave resolves, and onSave rejects when the mutation fails.
   */
  function SettleAsWritten(s: EditorState, saved: bool): EditorState {
    if saved then s.(loading := false) else s
  }

  /** A failed save leaves the editor's save button disabled until the editor is closed. */
  lemma FailedSaveLocksEditor(s: EditorState)
    requires s.loading
    ensures SaveDisabled(SettleAsWritten(s, false))
    ensures SettleAsWritten(s, false) == s
  {
  }

  /** The evidently intended step: loading is turned off whether the save worked or not. */
  function Settle(s: EditorState, saved: bool): (r: EditorState)
    ensures !SaveDisabled(r)
    ensures r.title == s.title && r.content == s.content && r.tags == s.tags
  {
    s.(loading := false)
  }

  class Editor {
    var title: string
    var content: string
    var tags: string
    var loading: bool

    constructor (note: Option<NoteView>)
      ensures EditorState(title, content, tags, loading) == OpenEditor(note)
    {
      var s := OpenEditor(note);
      title := s.title;
      content := s.content;
      tags := s.tags;
      loading := false;
    }

    /** handleSave up to `await onSave`: the body to save, or the toast when the title is blank. */
    method Submit() returns (body: Option<NoteInput>, toast: Option<string>)
      modifies this
      ensures Strip(old(title)) == "" ==> body == None && toast == Some(TitleRequired) && loading == old(loading)
      ensures Strip(old(title)) != "" ==> body == Some(SaveBody(old(title), old(content), old(tags))) && toast == None && loading
      ensures title == old(title) && content == old(content) && tags == old(tags)
    {
      if Strip(title) == "" {
        return None, Some(TitleRequired);
      }
      body := Some(SaveBody(title, content, tags));
      toast := None;
      loading := true;
    }

    /** handleSave after `await onSave`, with loading reset whatever the outcome. */
    method Finish(saved: bool)
      modifies this
      ensures EditorState(title, content, tags, loading) == Settle(old(EditorState(title, content, tags, loading)), saved)
    {
      loading := false;
    }
  }

  // -----------------------------------------------------------------------------------------
  // Mutations and the query cache

  const NotesKey := "notes"
  const StatsKey := "dashboard-stats"

  datatype Mutation =
    | CreateNote(data: NoteInput)
    | UpdateNote(id: nat, data: NoteInput)
    | DeleteNote(id: nat)
    | TogglePin(note: NoteView)

  /** The request body a mutation sends. */
  datatype Body = NoteBody(data: NoteInput) | PinBody(isPinned: bool) | NoBody

  /** mutationFn: the wrapper each mutation calls and what it sends. */
  function Request(m: Mutation): (r: (Api.Endpoint, Body))
    ensures m.TogglePin? ==> r == (Api.NoteUpdate(m.note.id), PinBody(!m.note.isPinned))
    ensures m.CreateNote? ==> r.0 == Api.NoteCreate && r.1 == NoteBody(m.data)
    ensures m.UpdateNote? ==> r.0 == Api.NoteUpdate(m.id) && r.1 == NoteBody(m.data)
    ensures m.DeleteNote? ==> r == (Api.NoteDelete(m.id), NoBody)
  {
    match m
    case CreateNote(data) => (Api.NoteCreate, NoteBody(data))
    case UpdateNote(id, data) => (Api.NoteUpdate(id), NoteBody(data))
    case DeleteNote(id) => (Api.NoteDelete(id), NoBody)
    case TogglePin(note) => (Api.NoteUpdate(note.id), PinBody(!note.isPinned))
  }

  /** The query keys onSuccess invalidates. */
  function Invalidates(m: Mutation): (keys: seq<string>)
    ensures NotesKey in keys
    ensures StatsKey in keys <==> m.CreateNote? || m.DeleteNote?
  {
    match m
    case CreateNote(_) => [NotesKey, StatsKey]
    case UpdateNote(_, _) => [NotesKey]
    case DeleteNote(_) => [NotesKey, StatsKey]
    case TogglePin(_) => [NotesKey]
  }

  /** onSuccess closes the editor after a create or an update. */
  predicate ClosesEditor(m: Mutation) {
    m.CreateNote? || m.UpdateNote?
  }

  function SuccessToast(m: Mutation): seq<string> {
    match m
    case CreateNote(_) => ["Note created!"]
    case UpdateNote(_, _) => ["Note saved!"]
    case DeleteNote(_) => ["Note deleted"]
    case TogglePin(_) => []
  }

  /** What the page's editor shows: nothing, a new note, or an existing note. */
  datatype Modal = Closed | Creating | Editing(note: NoteView)

  /** handleSave: update when the open note has an id (a truthy one), create otherwise. */
  function SaveMutation(modal: Modal, data: NoteInput): (m: Mutation)
    ensures modal.Editing? && modal.note.id != 0 ==> m == UpdateNote(modal.note.id, data)
    ensures !(modal.Editing? && modal.note.id != 0) ==> m == CreateNote(data)
  {
    if modal.Editing? && modal.note.id != 0 then UpdateNote(modal.note.id, data) else CreateNote(data)
  }

  /** A pin toggle pins an unpinned note and unpins a pinned one; twice restores the flag. */
  lemma PinTogglesFlag(note: NoteView)
    ensures Request(TogglePin(note)).1.isPinned != note.isPinned
    ensures Request(TogglePin(note.(isPinned := Request(TogglePin(note)).1.isPinned))).1.isPinned == note.isPinned
  {
  }

  class Page {
    var modal: Modal
    var filter: string
    /** The keys passed to invalidateQueries, in call order. */
    var invalidated: seq<string>
    var toasts: seq<string>

    constructor ()
      ensures modal == Closed && filter == "" && invalidated == [] && toasts == []
    {
      modal := Closed;
      filter := "";
      invalidated := [];
      toasts := [];
    }

    /**
     * A mutation settles: on success its keys are invalidated, its toast shown and, for a
     * save, the editor closed; a failure changes nothing on the page.
     */
    method Settle(m: Mutation, outcome: Api.Outcome<()>) returns (ok: bool)
      modifies this
      ensures ok <==> outcome.Success?
      ensures ok ==> invalidated == old(invalidated) + Invalidates(m) && toasts == old(toasts) + SuccessToast(m)
      ensures ok ==> modal == if ClosesEditor(m) then Closed else old(modal)
      ensures !ok ==> invalidated == old(invalidated) && toasts == old(toasts) && modal == old(modal)
      ensures filter == old(filter)
    {
      ok := outcome.Success?;
      if ok {
        var keys := Invalidates(m);
        var i := 0;
        while i < |keys|
          invariant 0 <= i <= |keys|
          invariant invalidated == old(invalidated) + keys[..i]
          invariant modal == old(modal) && toasts == old(toasts) && filter == old(filter)
        {
          invalidated := invalidated + [keys[i]];
          i := i + 1;
        }
        assert keys[..i] == keys;
        toasts := toasts + SuccessToast(m);
        if ClosesEditor(m) {
          modal := Closed;
        }
      }
    }

    /** The page's handleSave: the mutation it starts for the open editor. */
    method Save(data: NoteInput, outcome: Api.Outcome<()>) returns (m: Mutation, ok: bool)
      modifies this
      ensures m == SaveMutation(old(modal), data)
      ensures ok <==> outcome.Success?
      ensures ok ==> invalidated == old(invalidated) + Invalidates(m) && modal == Closed
      ensures ok ==> toasts == old(toasts) + SuccessToast(m)
      ensures !ok ==> invalidated == old(invalidated) && modal == old(modal) && toasts == old(toasts)
      ensures filter == old(filter)
    {
      m := SaveMutation(modal, data);
      ok := Settle(m, outcome);
    }
  }

  /** A save refreshes the dashboard statistics exactly when it creates a note. */
  lemma SaveInvalidation(modal: Modal, data: NoteInput)
    ensures var m := SaveMutation(modal, data);
      (StatsKey in Invalidates(m)) <==> !(modal.Editing? && modal.note.id != 0)
  {
  }

  // -----------------------------------------------------------------------------------------
  // The filter

  /** The filter test: empty keeps all; else the title or some tag contains it, ignoring case. */
  predicate Matches(n: NoteView, filter: string) {
    || filter == ""
    || Contains(LowerStr(n.title), LowerStr(filter))
    || (n.tags.Some? && exists t :: t in n.tags.value && Contains(LowerStr(t), LowerStr(filter)))
  }

  /** notes.filter(...): the matching notes in list order. */
  function Filtered(notes: seq<NoteView>, filter: string): (r: seq<NoteView>)
    ensures forall n :: n in r <==> n in notes && Matches(n, filter)
    ensures |r| <= |notes|
  {
    Filter(notes, (n: NoteView) => Matches(n, filter))
  }

  /** An empty filter shows every note, in order. */
  lemma EmptyFilterKeepsAll(notes: seq<NoteView>)
    ensures Filtered(notes, "") == notes
  {
    FilterAll(notes, (n: NoteView) => Matches(n, ""));
  }

  /** The filter ignores case: typing it in lower case shows the same notes. */
  lemma FilterIgnoresCase(notes: seq<NoteView>, filter: string)
    ensures Filtered(notes, LowerStr(filter)) == Filtered(notes, filter)
  {
    LowerIdempotent(filter);
    assert LowerStr(filter) == "" <==> filter == "";
    FilterSame(notes, (n: NoteView) => Matches(n, LowerStr(filter)), (n: NoteView) => Matches(n, filter));
  }
}
