/** The context panel of the AI chat: a form that adds a document to the store and
    makes it the context, and a list of the stored documents with the active one
    highlighted. */
module ContextPanel {
  import opened Wrappers
  import opened Strings
  import opened DocumentContext

  /** `handleAddDocument`'s guard: both trimmed fields must be non-empty. */
  predicate CanAdd(title: string, content: string): (r: bool)
    ensures r <==> (exists i :: 0 <= i < |title| && !IsSpace(title[i])) &&
                   (exists i :: 0 <= i < |content| && !IsSpace(content[i]))
  {
    Trim(title) != "" && Trim(content) != ""
  }

  /** A row is highlighted when the context text starts with the row's title. */
  predicate Highlighted(context: Option<string>, row: Document): (r: bool)
    ensures r <==> context.Some? && |row.title| <= |context.value| &&
                   forall i :: 0 <= i < |row.title| ==> context.value[i] == row.title[i]
  {
    context.Some? && StartsWith(context.value, row.title)
  }

  /** The document the context resolves to is highlighted. */
  lemma ActiveRowHighlighted(docs: seq<Document>, id: string)
    requires id != "" && FindById(docs, id).Some?
    ensures Highlighted(CurrentContext(docs, Some(id)), FindById(docs, id).value)
  {
  }

  /** Any row whose title is a prefix of the active title is highlighted as well,
      so several rows can light up at once. */
  lemma PrefixTitleHighlighted(docs: seq<Document>, id: string, row: Document)
    requires id != "" && FindById(docs, id).Some?
    requires row.title <= FindById(docs, id).value.title
    ensures Highlighted(CurrentContext(docs, Some(id)), row)
  {
    var active := FindById(docs, id).value;
    assert ContextString(active)[..|active.title|] == active.title;
  }

  /** Two rows highlighted at once, the second with a longer title that merely
      extends the first: "Plan" is highlighted while "Plan B" is active. */
  lemma TwoRowsHighlightedExample()
    ensures var docs := [Document("a", "Plan", "x", Note, 0), Document("b", "Plan B", "y", Note, 1)];
            Highlighted(CurrentContext(docs, Some("b")), docs[0]) &&
            Highlighted(CurrentContext(docs, Some("b")), docs[1])
  {
    var docs := [Document("a", "Plan", "x", Note, 0), Document("b", "Plan B", "y", Note, 1)];
    FindByIdAt(docs, "b", 1);
    PrefixTitleHighlighted(docs, "b", docs[0]);
  }

  /** The panel's form state, over the store of the enclosing provider. */
  class Panel {
    var title: string
    var content: string
    var docType: DocType
    const store: DocumentStore

    constructor (store: DocumentStore)
      ensures title == "" && content == "" && docType == Note && this.store == store
    {
      title := "";
      content := "";
      docType := Note;
      this.store := store;
    }

    /** `handleAddDocument` with `newId` standing for the random id and `now` for the
        clock: when the guard fails nothing changes; otherwise the trimmed document is
        appended and made current, the text fields are cleared and the panel closes
        (`closed`), the chosen type staying as it was. */
    method HandleAddDocument(newId: string, now: int) returns (closed: bool)
      modifies this, store
      ensures !CanAdd(old(title), old(content)) ==>
                !closed && title == old(title) && content == old(content) &&
                store.documents == old(store.documents) &&
                store.currentContextId == old(store.currentContextId)
      ensures CanAdd(old(title), old(content)) ==>
                closed && title == "" && content == "" &&
                store.documents == old(store.documents) +
                  [Document(newId, Trim(old(title)), Trim(old(content)), old(docType), now)] &&
                store.currentContextId == Some(newId)
      ensures docType == old(docType)
    {
      if !CanAdd(title, content) {
        return false;
      }
      var d := Document(newId, Trim(title), Trim(content), docType, now);
      store.AddDocument(d);
      store.SetCurrentContext(Some(newId));
      title := "";
      content := "";
      closed := true;
    }

    /** `handleSelectDocument`: the clicked row's id becomes the context id. */
    method HandleSelectDocument(id: string)
      modifies store
      ensures store.currentContextId == Some(id)
      ensures store.documents == old(store.documents)
    {
      store.SetCurrentContext(Some(id));
    }
  }

  /** A document added through the form under a fresh non-empty id becomes the
      context, whose text begins with the trimmed title, so its row is highlighted. */
  lemma AddedRowHighlighted(docs: seq<Document>, newId: string, title: string, content: string,
                            docType: DocType, now: int)
    requires CanAdd(title, content) && newId != ""
    requires forall i :: 0 <= i < |docs| ==> docs[i].id != newId
    ensures var d := Document(newId, Trim(title), Trim(content), docType, now);
            CurrentContext(docs + [d], Some(newId)) == Some(ContextString(d)) &&
            Highlighted(CurrentContext(docs + [d], Some(newId)), d)
  {
    AddedDocumentIsContext(docs, Document(newId, Trim(title), Trim(content), docType, now));
  }
}
