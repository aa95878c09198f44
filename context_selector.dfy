/** The document-context selector: the same add form as the panel (ids from
    `nanoid`), a list of the stored documents, and a button that clears the context. */
module ContextSelector {
  import opened Wrappers
  import opened Strings
  import opened DocumentContext
  import ContextPanel

  /** The selector's highlight tests the context text against the row's id, although
      that text begins with a title. */
  predicate Highlighted(context: Option<string>, row: Document): (r: bool)
    ensures r <==> context.Some? && |row.id| <= |context.value| &&
                   forall i :: 0 <= i < |row.id| ==> context.value[i] == row.id[i]
  {
    context.Some? && StartsWith(context.value, row.id)
  }

  /** For a row whose id holds no space (as every `nanoid` id does), the highlight
      holds exactly when the active document's title starts with that id: the
      context text goes on with " (" right after the title. */
  lemma HighlightTestsActiveTitle(docs: seq<Document>, id: string, row: Document)
    requires id != "" && FindById(docs, id).Some?
    requires ' ' !in row.id
    ensures Highlighted(CurrentContext(docs, Some(id)), row) <==>
            StartsWith(FindById(docs, id).value.title, row.id)
  {
    var active := FindById(docs, id).value;
    var text := ContextString(active);
    assert text[..|active.title|] == active.title;
    assert text[|active.title|] == ' ';
    if |row.id| <= |active.title| {
      assert text[..|row.id|] == active.title[..|row.id|];
    } else {
      assert row.id[|active.title|] != text[|active.title|];
    }
  }

  /** The active document need not be highlighted: with id "k3x" and title "Plan" its
      own row stays plain. */
  lemma ActiveRowNotHighlightedExample()
    ensures var docs := [Document("k3x", "Plan", "notes", Note, 0)];
            CurrentContext(docs, Some("k3x")).Some? &&
            !Highlighted(CurrentContext(docs, Some("k3x")), docs[0])
  {
    var docs := [Document("k3x", "Plan", "notes", Note, 0)];
    FindByIdAt(docs, "k3x", 0);
    assert ContextString(docs[0])[0] == 'P';
  }

  /** The selector's form state, over the store of the enclosing provider. */
  class Selector {
    var title: string
    var content: string
    var docType: DocType
    const store: DocumentStore

    constructor (store: DocumentStore)
      ensures title == "" && content == "" && docType == Note && this.store == store
    {
      title := "";
      content := "";
      docType := Note;
      this.store := store;
    }

    /** `handleAddDocument` with `newId` standing for `nanoid()` and `now` for the
        clock: a failed guard changes nothing; otherwise the trimmed document is
        appended and made current and the text fields are cleared. */
    method HandleAddDocument(newId: string, now: int)
      modifies this, store
      ensures !ContextPanel.CanAdd(old(title), old(content)) ==>
                title == old(title) && content == old(content) &&
                store.documents == old(store.documents) &&
                store.currentContextId == old(store.currentContextId)
      ensures ContextPanel.CanAdd(old(title), old(content)) ==>
                title == "" && content == "" &&
                store.documents == old(store.documents) +
                  [Document(newId, Trim(old(title)), Trim(old(content)), old(docType), now)] &&
                store.currentContextId == Some(newId)
      ensures docType == old(docType)
    {
      if !ContextPanel.CanAdd(title, content) {
        return;
      }
      var d := Document(newId, Trim(title), Trim(content), docType, now);
      store.AddDocument(d);
      store.SetCurrentContext(Some(newId));
      title := "";
      content := "";
    }

    /** `handleSelectDocument`: the clicked row's id becomes the context id. */
    method HandleSelectDocument(id: string)
      modifies store
      ensures store.currentContextId == Some(id)
      ensures store.documents == old(store.documents)
    {
      store.SetCurrentContext(Some(id));
    }

    /** `clearContext`: no context id, hence no context text. */
    method ClearContext()
      modifies store
      ensures store.currentContextId == None
      ensures CurrentContext(store.documents, store.currentContextId) == None
      ensures store.documents == old(store.documents)
    {
      store.SetCurrentContext(None);
    }
  }
}
