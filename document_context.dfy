/** The in-memory store of documents the AI chat may take as context, and the id
    of the document currently chosen as context. */
module DocumentContext {
  import opened Wrappers
  import opened Seqs
  import opened Strings

  datatype DocType = Note | Task | Page | Meeting

  /** The spelling of a document type inside the context string. */
  function TypeName(t: DocType): string {
    match t
    case Note => "note"
    case Task => "task"
    case Page => "page"
    case Meeting => "meeting"
  }

  /** Different types have different spellings, so the context text tells them apart. */
  lemma TypeNameInjective(a: DocType, b: DocType)
    requires TypeName(a) == TypeName(b)
    ensures a == b
  {
    assert TypeName(a)[0] == TypeName(b)[0];
    assert |TypeName(a)| == |TypeName(b)|;
  }

  /** A context document; `lastUpdated` is the millisecond time of its Date. */
  datatype Document = Document(id: string, title: string, content: string, docType: DocType, lastUpdated: int)

  /** The default `limit` of `getRecentDocuments`. */
  const DefaultRecentLimit: int := 5

  /** The message `useDocuments` throws outside a provider. */
  const OutsideProviderError: string := "useDocuments must be used within a DocumentProvider"

  function HasId(id: string): Document -> bool {
    (d: Document) => d.id == id
  }

  /** `filter(doc => doc.id !== id)`: every document with that id removed, the others
      kept in order. */
  function RemoveById(docs: seq<Document>, id: string): (r: seq<Document>)
    ensures forall i :: 0 <= i < |r| ==> r[i].id != id && r[i] in docs
    ensures forall i :: 0 <= i < |docs| && docs[i].id != id ==> docs[i] in r
    ensures (forall i :: 0 <= i < |docs| ==> docs[i].id != id) ==> r == docs
  {
    var r := Filter(docs, (d: Document) => d.id != id);
    if forall i :: 0 <= i < |docs| ==> docs[i].id != id then
      FilterAll(docs, (d: Document) => d.id != id);
      r
    else r
  }

  /** Removal keeps the relative order of what it keeps: removing from a concatenation
      is removing from each part. */
  lemma RemoveByIdConcat(a: seq<Document>, b: seq<Document>, id: string)
    ensures RemoveById(a + b, id) == RemoveById(a, id) + RemoveById(b, id)
  {
    FilterConcat(a, b, (d: Document) => d.id != id);
  }

  /** `getDocumentById`: the first document with that id, if any. */
  function FindById(docs: seq<Document>, id: string): (r: Option<Document>)
    ensures r.None? <==> forall i :: 0 <= i < |docs| ==> docs[i].id != id
    ensures r.Some? ==> exists k :: 0 <= k < |docs| && docs[k] == r.value && docs[k].id == id &&
                                   forall j :: 0 <= j < k ==> docs[j].id != id
  {
    Find(docs, HasId(id))
  }

  /** The first document with an id is the one at the first index carrying it. */
  lemma FindByIdAt(docs: seq<Document>, id: string, k: nat)
    requires k < |docs| && docs[k].id == id
    requires forall j :: 0 <= j < k ==> docs[j].id != id
    ensures FindById(docs, id) == Some(docs[k])
  {
    var r := FindById(docs, id);
    var m :| 0 <= m < |docs| && docs[m] == r.value && docs[m].id == id &&
             forall j :: 0 <= j < m ==> docs[j].id != id;
    assert m == k;
  }

  /** `getDocumentByTitle`: the first document whose title equals the argument after
      both are lowercased. */
  function FindByTitle(docs: seq<Document>, title: string): (r: Option<Document>)
    ensures r.None? <==> forall i :: 0 <= i < |docs| ==> Lower(docs[i].title) != Lower(title)
    ensures r.Some? ==> exists k :: 0 <= k < |docs| && docs[k] == r.value &&
                                   Lower(docs[k].title) == Lower(title) &&
                                   forall j :: 0 <= j < k ==> Lower(docs[j].title) != Lower(title)
  {
    Find(docs, (d: Document) => Lower(d.title) == Lower(title))
  }

  /** The sort key of `getRecentDocuments`: ascending in it is descending in time. */
  function RecencyKey(d: Document): int {
    -d.lastUpdated
  }

  /** `getRecentDocuments(limit)`: with `limit` counted as `slice(0, limit)` counts
      it, the most recently updated documents, newest first; together with the
      documents it leaves out they are exactly the store's documents. */
  function RecentDocuments(docs: seq<Document>, limit: int): (r: seq<Document>)
    ensures |r| == SliceEnd(|docs|, limit)
    ensures multiset(r) <= multiset(docs)
    ensures forall i, j :: 0 <= i < j < |r| ==> r[i].lastUpdated >= r[j].lastUpdated
    ensures forall d :: d in multiset(docs) - multiset(r) ==>
              forall i :: 0 <= i < |r| ==> d.lastUpdated <= r[i].lastUpdated
  {
    var p := SortBy(docs, RecencyKey);
    var k := SliceEnd(|docs|, limit);
    SortedPrefixIsNewest(p, k);
    p[..k]
  }

  /** Helper for `RecentDocuments`: the first `k` of a list in ascending `RecencyKey`
      order are newest first and no older than anything after them. */
  lemma SortedPrefixIsNewest(p: seq<Document>, k: nat)
    requires SortedBy(p, RecencyKey) && k <= |p|
    ensures multiset(p[..k]) <= multiset(p)
    ensures forall i, j :: 0 <= i < j < k ==> p[i].lastUpdated >= p[j].lastUpdated
    ensures forall d :: d in multiset(p) - multiset(p[..k]) ==>
              forall i :: 0 <= i < k ==> d.lastUpdated <= p[i].lastUpdated
  {
    var r := p[..k];
    assert p == r + p[k..];
    assert multiset(p) == multiset(r) + multiset(p[k..]);
    forall i, j | 0 <= i < j < k ensures p[i].lastUpdated >= p[j].lastUpdated {
      assert RecencyKey(p[i]) <= RecencyKey(p[j]);
    }
    forall d | d in multiset(p) - multiset(r)
      ensures forall i :: 0 <= i < k ==> d.lastUpdated <= p[i].lastUpdated
    {
      assert d in multiset(p[k..]);
      var m :| 0 <= m < |p[k..]| && p[k..][m] == d;
      assert p[k + m] == d;
      forall i | 0 <= i < k ensures d.lastUpdated <= p[i].lastUpdated {
        assert RecencyKey(p[i]) <= RecencyKey(p[k + m]);
      }
    }
  }

  /** The sort is stable: the kept documents updated at the same time come first
      among those documents, in store order. */
  lemma SameTimeKeepsOrder(docs: seq<Document>, limit: int, t: int)
    ensures Filter(RecentDocuments(docs, limit), KeyIs(RecencyKey, t)) <= Filter(docs, KeyIs(RecencyKey, t))
  {
    var p := SortBy(docs, RecencyKey);
    var k := SliceEnd(|docs|, limit);
    SortByStable(docs, RecencyKey, t);
    assert p == p[..k] + p[k..];
    FilterConcat(p[..k], p[k..], KeyIs(RecencyKey, t));
  }

  /** The text `getCurrentContext` returns for a resolved document. */
  function ContextString(d: Document): (r: string)
    ensures StartsWith(r, d.title)
  {
    d.title + " (" + TypeName(d.docType) + ")\n\n" + d.content
  }

  /** `getCurrentContext`: absent when no id is set, when the id is empty, or when it
      names no document; otherwise the formatted text of the first document with it. */
  function CurrentContext(docs: seq<Document>, currentId: Option<string>): (r: Option<string>)
    ensures r.None? <==> currentId.None? || currentId.value == "" ||
                         forall i :: 0 <= i < |docs| ==> docs[i].id != currentId.value
    ensures r.Some? ==> FindById(docs, currentId.value).Some? &&
                        r.value == ContextString(FindById(docs, currentId.value).value)
  {
    match currentId
    case None => None
    case Some(id) =>
      if id == "" then None
      else match FindById(docs, id)
        case None => None
        case Some(d) => Some(ContextString(d))
  }

  /** Selecting a document and then removing it leaves no context. */
  lemma RemoveSelectedClearsContext(docs: seq<Document>, id: string)
    ensures CurrentContext(RemoveById(docs, id), Some(id)).None?
  {
  }

  /** A document added under an id no other document has, once selected, gives
      exactly its own context text. */
  lemma AddedDocumentIsContext(docs: seq<Document>, d: Document)
    requires d.id != ""
    requires forall i :: 0 <= i < |docs| ==> docs[i].id != d.id
    ensures CurrentContext(docs + [d], Some(d.id)) == Some(ContextString(d))
  {
    FindByIdAt(docs + [d], d.id, |docs|);
  }

  /** The `DocumentProvider` state: the documents in insertion order and the id
      chosen as context, which is never validated when set. */
  class DocumentStore {
    var documents: seq<Document>
    var currentContextId: Option<string>

    constructor ()
      ensures documents == [] && currentContextId == None
    {
      documents := [];
      currentContextId := None;
    }

    /** `addDocument`: appends, even when the id is already present. */
    method AddDocument(d: Document)
      modifies this
      ensures documents == old(documents) + [d]
      ensures currentContextId == old(currentContextId)
    {
      documents := documents + [d];
    }

    /** `removeDocument`: drops every document with the id; the context id stays. */
    method RemoveDocument(id: string)
      modifies this
      ensures documents == RemoveById(old(documents), id)
      ensures currentContextId == old(currentContextId)
    {
      documents := RemoveById(documents, id);
    }

    /** `setCurrentContext`: stores the id as given. */
    method SetCurrentContext(id: Option<string>)
      modifies this
      ensures currentContextId == id
      ensures documents == old(documents)
    {
      currentContextId := id;
    }

    function GetDocumentById(id: string): Option<Document>
      reads this
    {
      FindById(documents, id)
    }

    function GetDocumentByTitle(title: string): Option<Document>
      reads this
    {
      FindByTitle(documents, title)
    }

    function GetRecentDocuments(limit: int := DefaultRecentLimit): seq<Document>
      reads this
    {
      RecentDocuments(documents, limit)
    }

    function GetCurrentContext(): Option<string>
      reads this
    {
      CurrentContext(documents, currentContextId)
    }
  }

  /** `useDocuments`: the store of the enclosing provider, or an error outside one. */
  function UseDocuments(provided: DocumentStore?): (r: Result<DocumentStore, string>)
    ensures provided == null <==> r.Err?
    ensures r.Err? ==> r.error == OutsideProviderError
    ensures r.Ok? ==> r.value == provided
  {
    if provided == null then Err(OutsideProviderError) else Ok(provided)
  }
}
