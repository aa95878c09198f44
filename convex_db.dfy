/** The Convex tables the backend functions use, as lists of documents in creation
    order. A document is its id and its fields; ids come from one counter, so an id
    never names two documents. */
module ConvexDb {
  import opened Wrappers
  import opened Seqs

  type Id = nat

  datatype Doc<T> = Doc(id: Id, fields: T)

  datatype PageFields = PageFields(title: string, description: Option<string>, coverImage: Option<string>,
                                   createdAt: int, updatedAt: int, userId: string, icon: Option<string>,
                                   isFavorite: bool, content: Option<string>)

  datatype VisitFields = VisitFields(pageId: Id, userId: string, visitedAt: int)

  datatype CalendarFields = CalendarFields(name: string, icalUrl: string, userId: string, lastSynced: int,
                                           color: Option<string>)

  /** An event. The public mutations store the `userId` their arguments carry and no
      `lastSynced`; the internal ones store a `lastSynced` and no `userId`. */
  datatype EventFields = EventFields(calendarId: Id, title: string, description: Option<string>,
                                     startTime: int, endTime: int, location: Option<string>,
                                     url: Option<string>, lastSynced: Option<int>, userId: Option<string>)

  const Unauthorized: string := "Unauthorized"

  /** Stands for the error Convex raises when `patch` names no document; its exact
      wording is Convex's own. */
  const MissingDocument: string := "Nonexistent document"

  predicate UniqueIds<T>(t: seq<Doc<T>>) {
    forall i, j :: 0 <= i < j < |t| ==> t[i].id != t[j].id
  }

  predicate IdsBelow<T>(t: seq<Doc<T>>, bound: nat) {
    forall i :: 0 <= i < |t| ==> t[i].id < bound
  }

  /** The ids of a table. */
  function Ids<T>(t: seq<Doc<T>>): (r: set<Id>)
    ensures forall i :: 0 <= i < |t| ==> t[i].id in r
    ensures forall x :: x in r ==> exists i :: 0 <= i < |t| && t[i].id == x
  {
    set i | 0 <= i < |t| :: t[i].id
  }

  /** The ids of a prefix grow by one id per document. */
  lemma IdsSnoc<T>(s: seq<Doc<T>>, i: nat)
    requires i < |s|
    ensures Ids(s[..i + 1]) == Ids(s[..i]) + {s[i].id}
  {
    assert s[..i + 1] == s[..i] + [s[i]];
  }

  /** `ctx.db.get(id)`: the document with that id, if any. */
  function Get<T>(t: seq<Doc<T>>, id: Id): (r: Option<Doc<T>>)
    ensures r.None? <==> id !in Ids(t)
    ensures r.Some? ==> r.value in t && r.value.id == id
  {
    if t == [] then None
    else if t[0].id == id then Some(t[0])
    else Get(t[1..], id)
  }

  /** In a table without repeated ids, `Get` finds the document at any index. */
  lemma GetAt<T>(t: seq<Doc<T>>, i: nat)
    requires UniqueIds(t) && i < |t|
    ensures Get(t, t[i].id) == Some(t[i])
  {
    var r := Get(t, t[i].id);
    var j :| 0 <= j < |t| && t[j] == r.value;
  }

  /** The table after deleting the documents whose ids are in `ids`: the others,
      in order. */
  function WithoutIds<T>(t: seq<Doc<T>>, ids: set<Id>): (r: seq<Doc<T>>)
    ensures |r| <= |t|
    ensures forall i :: 0 <= i < |r| ==> r[i] in t && r[i].id !in ids
    ensures forall i :: 0 <= i < |t| && t[i].id !in ids ==> t[i] in r
  {
    if t == [] then []
    else (if t[0].id in ids then [] else [t[0]]) + WithoutIds(t[1..], ids)
  }

  lemma {:induction false} WithoutIdsConcat<T>(a: seq<Doc<T>>, b: seq<Doc<T>>, ids: set<Id>)
    ensures WithoutIds(a + b, ids) == WithoutIds(a, ids) + WithoutIds(b, ids)
  {
    if a == [] {
      assert a + b == b;
    } else {
      assert (a + b)[0] == a[0];
      assert (a + b)[1..] == a[1..] + b;
      WithoutIdsConcat(a[1..], b, ids);
    }
  }

  /** Deleting ids that are not in the table changes nothing. */
  lemma {:induction false} WithoutIdsOthers<T>(t: seq<Doc<T>>, ids: set<Id>, extra: set<Id>)
    requires Ids(t) !! extra
    ensures WithoutIds(t, ids + extra) == WithoutIds(t, ids)
  {
    if t != [] {
      assert t[0].id in Ids(t);
      assert Ids(t[1..]) <= Ids(t) by {
        forall x | x in Ids(t[1..]) ensures x in Ids(t) {
          var i :| 0 <= i < |t[1..]| && t[1..][i].id == x;
          assert t[i + 1].id == x;
        }
      }
      WithoutIdsOthers(t[1..], ids, extra);
    }
  }

  /** Deleting one more id after a set of ids is deleting both. */
  lemma {:induction false} WithoutIdsTwice<T>(t: seq<Doc<T>>, ids: set<Id>, id: Id)
    ensures WithoutIds(WithoutIds(t, ids), {id}) == WithoutIds(t, ids + {id})
  {
    if t != [] {
      WithoutIdsTwice(t[1..], ids, id);
      var head := if t[0].id in ids then [] else [t[0]];
      WithoutIdsConcat(head, WithoutIds(t[1..], ids), {id});
      if head != [] {
        assert head[1..] == [];
      }
    }
  }

  /** A document whose id the rest of a table lacks can go in front of it. */
  lemma ConsUnique<T>(d: Doc<T>, rest: seq<Doc<T>>)
    requires UniqueIds(rest)
    requires forall k :: 0 <= k < |rest| ==> rest[k].id != d.id
    ensures UniqueIds([d] + rest)
  {
    var r := [d] + rest;
    forall a, b | 0 <= a < b < |r| ensures r[a].id != r[b].id {
      assert r[b] == rest[b - 1];
    }
  }

  /** Deletion keeps ids unique. */
  lemma {:induction false} WithoutIdsUnique<T>(t: seq<Doc<T>>, ids: set<Id>)
    requires UniqueIds(t)
    ensures UniqueIds(WithoutIds(t, ids))
  {
    if t != [] {
      var tail := t[1..];
      assert UniqueIds(tail) by {
        forall a, b | 0 <= a < b < |tail| ensures tail[a].id != tail[b].id {
          assert tail[a] == t[a + 1] && tail[b] == t[b + 1];
        }
      }
      WithoutIdsUnique(tail, ids);
      var rest := WithoutIds(tail, ids);
      if t[0].id !in ids {
        forall k | 0 <= k < |rest| ensures rest[k].id != t[0].id {
          var j :| 0 <= j < |tail| && tail[j] == rest[k];
          assert t[j + 1] == rest[k];
        }
        ConsUnique(t[0], rest);
        assert WithoutIds(t, ids) == [t[0]] + rest;
      } else {
        assert WithoutIds(t, ids) == rest;
      }
    }
  }

  /** Deletion keeps ids unique and below the counter. */
  lemma WithoutIdsValid<T>(t: seq<Doc<T>>, ids: set<Id>, bound: nat)
    requires UniqueIds(t) && IdsBelow(t, bound)
    ensures UniqueIds(WithoutIds(t, ids)) && IdsBelow(WithoutIds(t, ids), bound)
  {
    WithoutIdsUnique(t, ids);
    var r := WithoutIds(t, ids);
    forall i | 0 <= i < |r| ensures r[i].id < bound {
      var j :| 0 <= j < |t| && t[j] == r[i];
    }
  }

  /** A fresh document appended under the counter keeps ids unique and below the
      next counter value. */
  lemma AppendValid<T>(t: seq<Doc<T>>, d: Doc<T>, bound: nat)
    requires UniqueIds(t) && IdsBelow(t, bound) && d.id == bound
    ensures UniqueIds(t + [d]) && IdsBelow(t + [d], bound + 1)
  {
  }

  /** Changing fields in place keeps ids unique and below the counter. */
  lemma SameIdsValid<T>(t: seq<Doc<T>>, r: seq<Doc<T>>, bound: nat)
    requires UniqueIds(t) && IdsBelow(t, bound)
    requires |r| == |t| && forall i :: 0 <= i < |r| ==> r[i].id == t[i].id
    ensures UniqueIds(r) && IdsBelow(r, bound)
  {
  }

  /** Documents with the same ids at the same places keep the ids unique. */
  lemma SameIdsUnique<T>(t: seq<Doc<T>>, r: seq<Doc<T>>)
    requires UniqueIds(t)
    requires |r| == |t| && forall i :: 0 <= i < |r| ==> r[i].id == t[i].id
    ensures UniqueIds(r)
  {
  }

  /** Deleting ids that no document carries changes nothing. */
  lemma {:induction false} WithoutIdsDisjoint<T>(t: seq<Doc<T>>, ids: set<Id>)
    requires forall i :: 0 <= i < |t| ==> t[i].id !in ids
    ensures WithoutIds(t, ids) == t
  {
    if t != [] {
      WithoutIdsDisjoint(t[1..], ids);
    }
  }

  /** Deleting every id a table carries empties it. */
  lemma {:induction false} WithoutIdsAll<T>(t: seq<Doc<T>>, ids: set<Id>)
    requires forall i :: 0 <= i < |t| ==> t[i].id in ids
    ensures WithoutIds(t, ids) == []
  {
    if t != [] {
      WithoutIdsAll(t[1..], ids);
    }
  }

  /** In a table without repeated ids, deleting the ids of the first `k` documents
      leaves exactly the documents after them. */
  lemma WithoutIdsPrefix<T>(t: seq<Doc<T>>, k: nat)
    requires UniqueIds(t) && k <= |t|
    ensures WithoutIds(t, Ids(t[..k])) == t[k..]
  {
    var front, back := t[..k], t[k..];
    PrefixIdsNotAfter(t, k);
    assert forall i :: 0 <= i < |back| ==> back[i] == t[k + i];
    assert t == front + back;
    WithoutIdsSplit(front, back, Ids(front));
  }

  /** Deleting ids that every document of `front` and none of `back` carries leaves
      `back`. */
  lemma WithoutIdsSplit<T>(front: seq<Doc<T>>, back: seq<Doc<T>>, ids: set<Id>)
    requires forall i :: 0 <= i < |front| ==> front[i].id in ids
    requires forall i :: 0 <= i < |back| ==> back[i].id !in ids
    ensures WithoutIds(front + back, ids) == back
  {
    WithoutIdsConcat(front, back, ids);
    WithoutIdsAll(front, ids);
    WithoutIdsDisjoint(back, ids);
  }

  /** In a table without repeated ids, no document after the first `k` carries an
      id of the first `k`. */
  lemma PrefixIdsNotAfter<T>(t: seq<Doc<T>>, k: nat)
    requires UniqueIds(t) && k <= |t|
    ensures forall i :: k <= i < |t| ==> t[i].id !in Ids(t[..k])
  {
    var front := t[..k];
    forall i | k <= i < |t| ensures t[i].id !in Ids(front) {
      forall j | 0 <= j < |front| ensures front[j].id != t[i].id {
        assert front[j] == t[j];
      }
    }
  }

  /** Selecting documents and deleting ids commute. */
  lemma {:induction false} FilterWithoutIds<T>(t: seq<Doc<T>>, ids: set<Id>, p: Doc<T> -> bool)
    ensures Filter(WithoutIds(t, ids), p) == WithoutIds(Filter(t, p), ids)
  {
    if t != [] {
      FilterWithoutIds(t[1..], ids, p);
      var head := if t[0].id in ids then [] else [t[0]];
      FilterConcat(head, WithoutIds(t[1..], ids), p);
      var kept := if p(t[0]) then [t[0]] else [];
      WithoutIdsConcat(kept, Filter(t[1..], p), ids);
      if head != [] {
        assert head[1..] == [];
      }
      if kept != [] {
        assert kept[1..] == [];
      }
    }
  }

  /** Selecting documents from a table without repeated ids gives one too. */
  lemma {:induction false} FilterUnique<T>(t: seq<Doc<T>>, p: Doc<T> -> bool)
    requires UniqueIds(t)
    ensures UniqueIds(Filter(t, p))
  {
    if t != [] {
      FilterUnique(t[1..], p);
      var rest := Filter(t[1..], p);
      forall k | 0 <= k < |rest| ensures rest[k].id != t[0].id {
        var j :| 0 <= j < |t[1..]| && t[1..][j] == rest[k];
        assert t[j + 1] == rest[k];
      }
    }
  }

  /** Two different documents of a table without repeated ids have different ids. */
  lemma DistinctDocsDistinctIds<T>(t: seq<Doc<T>>, a: Doc<T>, b: Doc<T>)
    requires UniqueIds(t) && a in t && b in t && a != b
    ensures a.id != b.id
  {
    var i :| 0 <= i < |t| && t[i] == a;
    var j :| 0 <= j < |t| && t[j] == b;
    assert i != j;
  }

  /** `.take(n)` of a query: its first `n` documents, none when `n` is not positive. */
  function Take<T>(s: seq<T>, n: int): (r: seq<T>)
    ensures |r| == if n <= 0 then 0 else if n < |s| then n else |s|
    ensures r == s[..|r|]
  {
    if n <= 0 then [] else if n < |s| then s[..n] else s
  }

  /** The documents `fields` become when inserted one after another with the
      counter at `start`. */
  function Stamped<T>(fields: seq<T>, start: nat): (r: seq<Doc<T>>)
    ensures |r| == |fields|
    ensures forall i :: 0 <= i < |r| ==> r[i] == Doc(start + i, fields[i])
  {
    seq(|fields|, i requires 0 <= i < |fields| => Doc(start + i, fields[i]))
  }

  /** Inserting one more stamps one more document. */
  lemma StampedSnoc<T>(fields: seq<T>, start: nat, i: nat)
    requires i < |fields|
    ensures Stamped(fields[..i + 1], start) == Stamped(fields[..i], start) + [Doc(start + i, fields[i])]
  {
  }

  /** All the tables and the counter at one moment: what a failed mutation restores. */
  datatype Tables = Tables(pages: seq<Doc<PageFields>>, pageVisits: seq<Doc<VisitFields>>,
                           calendars: seq<Doc<CalendarFields>>, events: seq<Doc<EventFields>>, nextId: nat)

  ghost predicate ValidTables(s: Tables) {
    UniqueIds(s.pages) && IdsBelow(s.pages, s.nextId) &&
    UniqueIds(s.pageVisits) && IdsBelow(s.pageVisits, s.nextId) &&
    UniqueIds(s.calendars) && IdsBelow(s.calendars, s.nextId) &&
    UniqueIds(s.events) && IdsBelow(s.events, s.nextId)
  }

  /** `ctx.db.patch(id, { coverImage: url, updatedAt: now })` applied to the pages. */
  function SetCover(pages: seq<Doc<PageFields>>, id: Id, url: string, now: int): (r: seq<Doc<PageFields>>)
    ensures |r| == |pages|
    ensures forall i :: 0 <= i < |r| ==> r[i].id == pages[i].id
    ensures forall i :: 0 <= i < |pages| && pages[i].id == id ==>
              r[i] == Doc(id, pages[i].fields.(coverImage := Some(url), updatedAt := now))
    ensures forall i :: 0 <= i < |pages| && pages[i].id != id ==> r[i] == pages[i]
  {
    var r := seq(|pages|, i requires 0 <= i < |pages| =>
      if pages[i].id == id then Doc(id, pages[i].fields.(coverImage := Some(url), updatedAt := now))
      else pages[i]);
    assert forall i :: 0 <= i < |pages| ==> r[i].id == pages[i].id;
    r
  }

  /** `ctx.db.patch(id, { lastSynced: t })` applied to the calendars. */
  function SetLastSynced(calendars: seq<Doc<CalendarFields>>, id: Id, t: int): (r: seq<Doc<CalendarFields>>)
    ensures |r| == |calendars|
    ensures forall i :: 0 <= i < |r| ==> r[i].id == calendars[i].id
    ensures forall i :: 0 <= i < |calendars| && calendars[i].id == id ==>
              r[i] == Doc(id, calendars[i].fields.(lastSynced := t))
    ensures forall i :: 0 <= i < |calendars| && calendars[i].id != id ==> r[i] == calendars[i]
  {
    var r := seq(|calendars|, i requires 0 <= i < |calendars| =>
      if calendars[i].id == id then Doc(id, calendars[i].fields.(lastSynced := t)) else calendars[i]);
    assert forall i :: 0 <= i < |calendars| ==> r[i].id == calendars[i].id;
    r
  }

  /** The tables, in creation order, and the id counter. */
  class Database {
    var pages: seq<Doc<PageFields>>
    var pageVisits: seq<Doc<VisitFields>>
    var calendars: seq<Doc<CalendarFields>>
    var events: seq<Doc<EventFields>>
    var nextId: nat

    /** No id repeats within a table and every id was issued by the counter. */
    ghost predicate Valid()
      reads this
    {
      UniqueIds(pages) && IdsBelow(pages, nextId) &&
      UniqueIds(pageVisits) && IdsBelow(pageVisits, nextId) &&
      UniqueIds(calendars) && IdsBelow(calendars, nextId) &&
      UniqueIds(events) && IdsBelow(events, nextId)
    }

    constructor ()
      ensures Valid()
      ensures pages == [] && pageVisits == [] && calendars == [] && events == [] && nextId == 0
    {
      pages := [];
      pageVisits := [];
      calendars := [];
      events := [];
      nextId := 0;
    }

    /** `ctx.db.insert("pageVisits", f)`. */
    method InsertVisit(f: VisitFields) returns (id: Id)
      requires Valid()
      modifies this
      ensures Valid()
      ensures id == old(nextId) && nextId == old(nextId) + 1
      ensures pageVisits == old(pageVisits) + [Doc(id, f)]
      ensures pages == old(pages) && calendars == old(calendars) && events == old(events)
    {
      id := nextId;
      AppendValid(pageVisits, Doc(id, f), nextId);
      pageVisits := pageVisits + [Doc(id, f)];
      nextId := nextId + 1;
    }

    /** `ctx.db.delete(id)` on a visit. */
    method DeleteVisit(id: Id)
      requires Valid()
      modifies this
      ensures Valid()
      ensures pageVisits == WithoutIds(old(pageVisits), {id})
      ensures pages == old(pages) && calendars == old(calendars) && events == old(events)
      ensures nextId == old(nextId)
    {
      WithoutIdsValid(pageVisits, {id}, nextId);
      pageVisits := WithoutIds(pageVisits, {id});
    }

    /** `ctx.db.insert("calendars", f)`. */
    method InsertCalendar(f: CalendarFields) returns (id: Id)
      requires Valid()
      modifies this
      ensures Valid()
      ensures id == old(nextId) && nextId == old(nextId) + 1
      ensures calendars == old(calendars) + [Doc(id, f)]
      ensures pages == old(pages) && pageVisits == old(pageVisits) && events == old(events)
    {
      id := nextId;
      AppendValid(calendars, Doc(id, f), nextId);
      calendars := calendars + [Doc(id, f)];
      nextId := nextId + 1;
    }

    /** `ctx.db.insert("events", f)`. */
    method InsertEvent(f: EventFields) returns (id: Id)
      requires Valid()
      modifies this
      ensures Valid()
      ensures id == old(nextId) && nextId == old(nextId) + 1
      ensures events == old(events) + [Doc(id, f)]
      ensures pages == old(pages) && pageVisits == old(pageVisits) && calendars == old(calendars)
    {
      id := nextId;
      AppendValid(events, Doc(id, f), nextId);
      events := events + [Doc(id, f)];
      nextId := nextId + 1;
    }

    /** `ctx.db.patch` of a page's cover; `ok` is false, and nothing changes, when no
        page has the id (where Convex throws). */
    method PatchPageCover(id: Id, url: string, now: int) returns (ok: bool)
      requires Valid()
      modifies this
      ensures Valid()
      ensures ok <==> id in Ids(old(pages))
      ensures ok ==> pages == SetCover(old(pages), id, url, now)
      ensures !ok ==> pages == old(pages)
      ensures pageVisits == old(pageVisits) && calendars == old(calendars) && events == old(events)
      ensures nextId == old(nextId)
    {
      ok := Get(pages, id).Some?;
      if ok {
        var r := SetCover(pages, id, url, now);
        SameIdsValid(pages, r, nextId);
        pages := r;
      }
    }

    /** `ctx.db.patch` of a calendar's `lastSynced`; `ok` is false, and nothing
        changes, when no calendar has the id. */
    method PatchCalendarLastSynced(id: Id, t: int) returns (ok: bool)
      requires Valid()
      modifies this
      ensures Valid()
      ensures ok <==> id in Ids(old(calendars))
      ensures ok ==> calendars == SetLastSynced(old(calendars), id, t)
      ensures !ok ==> calendars == old(calendars)
      ensures pages == old(pages) && pageVisits == old(pageVisits) && events == old(events)
      ensures nextId == old(nextId)
    {
      ok := Get(calendars, id).Some?;
      if ok {
        var r := SetLastSynced(calendars, id, t);
        SameIdsValid(calendars, r, nextId);
        calendars := r;
      }
    }

    /** The current tables. */
    function Snapshot(): (s: Tables)
      reads this
      ensures Valid() ==> ValidTables(s)
    {
      Tables(pages, pageVisits, calendars, events, nextId)
    }

    /** The rollback of a mutation that throws: every table is put back. */
    method Restore(s: Tables)
      requires ValidTables(s)
      modifies this
      ensures Valid() && Snapshot() == s
    {
      pages, pageVisits, calendars, events, nextId := s.pages, s.pageVisits, s.calendars, s.events, s.nextId;
    }

    /** Inserts the events one after another, returning their ids in order. */
    method InsertEvents(fs: seq<EventFields>) returns (ids: seq<Id>)
      requires Valid()
      modifies this
      ensures Valid()
      ensures events == old(events) + Stamped(fs, old(nextId))
      ensures nextId == old(nextId) + |fs|
      ensures |ids| == |fs| && forall i :: 0 <= i < |ids| ==> ids[i] == old(nextId) + i
      ensures pages == old(pages) && pageVisits == old(pageVisits) && calendars == old(calendars)
    {
      ids := [];
      var i := 0;
      while i < |fs|
        invariant 0 <= i <= |fs| && Valid()
        invariant events == old(events) + Stamped(fs[..i], old(nextId))
        invariant nextId == old(nextId) + i
        invariant |ids| == i && forall j :: 0 <= j < i ==> ids[j] == old(nextId) + j
        invariant pages == old(pages) && pageVisits == old(pageVisits) && calendars == old(calendars)
      {
        var id := InsertEvent(fs[i]);
        StampedSnoc(fs, old(nextId), i);
        ids := ids + [id];
        i := i + 1;
      }
      assert fs[..|fs|] == fs;
    }

    /** Deletes the given events one at a time. */
    method DeleteEvents(doomed: seq<Doc<EventFields>>)
      requires Valid()
      modifies this
      ensures Valid()
      ensures events == WithoutIds(old(events), Ids(doomed))
      ensures pages == old(pages) && pageVisits == old(pageVisits) && calendars == old(calendars)
      ensures nextId == old(nextId)
    {
      ghost var t := events;
      ghost var gone: set<Id> := {};
      WithoutIdsDisjoint(t, {});
      var i := 0;
      while i < |doomed|
        invariant 0 <= i <= |doomed| && Valid()
        invariant gone == Ids(doomed[..i])
        invariant events == WithoutIds(t, gone)
        invariant nextId == old(nextId)
        invariant pages == old(pages) && pageVisits == old(pageVisits) && calendars == old(calendars)
      {
        DeleteEvent(doomed[i].id);
        WithoutIdsTwice(t, gone, doomed[i].id);
        IdsSnoc(doomed, i);
        gone := gone + {doomed[i].id};
        i := i + 1;
      }
      assert doomed[..|doomed|] == doomed;
    }

    /** `ctx.db.delete(id)` on an event. */
    method DeleteEvent(id: Id)
      requires Valid()
      modifies this
      ensures Valid()
      ensures events == WithoutIds(old(events), {id})
      ensures pages == old(pages) && pageVisits == old(pageVisits) && calendars == old(calendars)
      ensures nextId == old(nextId)
    {
      WithoutIdsValid(events, {id}, nextId);
      events := WithoutIds(events, {id});
    }
  }
}
