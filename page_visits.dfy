/** The page-visit log: `recordVisit` stores a visit and keeps only the newest
    visits of the user, and `getRecentVisits` joins the newest visits with their
    pages. The `by_user` index orders a user's visits by creation, so "newest" is
    "latest inserted". */
module PageVisits {
  import opened Wrappers
  import opened Seqs
  import opened ConvexDb

  /** How many visits `recordVisit` keeps per user. */
  const RetainedVisits: nat := 50

  /** The default `limit` of `getRecentVisits`. */
  const DefaultVisitLimit: int := 6

  function OfUser(user: string): Doc<VisitFields> -> bool {
    (d: Doc<VisitFields>) => d.fields.userId == user
  }

  function OfOthers(user: string): Doc<VisitFields> -> bool {
    (d: Doc<VisitFields>) => d.fields.userId != user
  }

  /** The user's visits in creation order (`withIndex("by_user")` ascending). */
  function UserVisits(t: seq<Doc<VisitFields>>, user: string): seq<Doc<VisitFields>> {
    Filter(t, OfUser(user))
  }

  /** The user's visits newest first (`.order("desc")`). */
  function NewestFirst(t: seq<Doc<VisitFields>>, user: string): seq<Doc<VisitFields>> {
    Reverse(UserVisits(t, user))
  }

  /** `visits.slice(50)` when there are more than 50: the visits to delete. */
  function OldVisits(t: seq<Doc<VisitFields>>, user: string): seq<Doc<VisitFields>> {
    var v := NewestFirst(t, user);
    if |v| > RetainedVisits then v[RetainedVisits..] else []
  }

  /** The visit table after the clean-up step of `recordVisit`. */
  function Retain(t: seq<Doc<VisitFields>>, user: string): (r: seq<Doc<VisitFields>>)
    ensures |r| <= |t|
    ensures forall i :: 0 <= i < |r| ==> r[i] in t
  {
    WithoutIds(t, Ids(OldVisits(t, user)))
  }

  /** Reversing a list keeps its ids. */
  lemma IdsReverse<T>(s: seq<Doc<T>>)
    ensures Ids(Reverse(s)) == Ids(s)
  {
    var r := Reverse(s);
    forall x | x in Ids(r) ensures x in Ids(s) {
      var i :| 0 <= i < |r| && r[i].id == x;
      assert s[|s| - 1 - i] == r[i];
    }
    forall x | x in Ids(s) ensures x in Ids(r) {
      var i :| 0 <= i < |s| && s[i].id == x;
      assert r[|s| - 1 - i] == s[i];
    }
  }

  /** The ids past position `m` of the reversed list are the ids of its first
      `|u| - m` elements. */
  lemma ReversedTailIds<T>(u: seq<Doc<T>>, m: nat)
    requires m <= |u|
    ensures Ids(Reverse(u)[m..]) == Ids(u[..|u| - m])
  {
    var b := u[..|u| - m];
    assert Reverse(u)[m..] == Reverse(b);
    IdsReverse(b);
  }

  /** The ids `recordVisit` deletes are those of the user's oldest visits beyond
      the newest 50. */
  lemma OldVisitIds(t: seq<Doc<VisitFields>>, user: string)
    ensures var u := UserVisits(t, user);
            |u| > RetainedVisits ==> Ids(OldVisits(t, user)) == Ids(u[..|u| - RetainedVisits])
    ensures |UserVisits(t, user)| <= RetainedVisits ==> OldVisits(t, user) == []
  {
    var u := UserVisits(t, user);
    var v := NewestFirst(t, user);
    assert v == Reverse(u);
    if |u| > RetainedVisits {
      assert OldVisits(t, user) == v[RetainedVisits..];
      ReversedTailIds(u, RetainedVisits);
    } else {
      assert OldVisits(t, user) == [];
    }
  }

  /** After the clean-up the user keeps exactly their newest visits, at most 50 of
      them, in creation order. */
  lemma RetainUserVisits(t: seq<Doc<VisitFields>>, user: string)
    requires UniqueIds(t)
    ensures var u := UserVisits(t, user);
            var m := if |u| < RetainedVisits then |u| else RetainedVisits;
            UserVisits(Retain(t, user), user) == u[|u| - m..]
    ensures |UserVisits(Retain(t, user), user)| <= RetainedVisits
  {
    var u := UserVisits(t, user);
    var kept := UserVisits(Retain(t, user), user);
    if |u| > RetainedVisits {
      RetainManyVisits(t, user);
      NewestSuffix(u, kept);
    } else {
      RetainFewVisits(t, user);
      NewestSuffix(u, kept);
    }
  }

  /** Helper for `RetainUserVisits`: the newest 50 of more than 50, or all of at most
      50, are the newest `min(|u|, 50)`. */
  lemma NewestSuffix<T>(u: seq<T>, kept: seq<T>)
    requires |u| > RetainedVisits ==> kept == u[|u| - RetainedVisits..]
    requires |u| <= RetainedVisits ==> kept == u
    ensures var m := if |u| < RetainedVisits then |u| else RetainedVisits;
            kept == u[|u| - m..] && |kept| <= RetainedVisits
  {
    assert u[0..] == u;
  }

  /** With more than 50 visits the user keeps the newest 50. */
  lemma RetainManyVisits(t: seq<Doc<VisitFields>>, user: string)
    requires UniqueIds(t) && |UserVisits(t, user)| > RetainedVisits
    ensures var u := UserVisits(t, user);
            UserVisits(Retain(t, user), user) == u[|u| - RetainedVisits..]
  {
    var u := UserVisits(t, user);
    var k := |u| - RetainedVisits;
    FilterUnique(t, OfUser(user));
    WithoutIdsPrefix(u, k);
    OldVisitIds(t, user);
    RetainedUserVisits(t, user);
    KeptSuffix(UserVisits(Retain(t, user), user), u, Ids(OldVisits(t, user)), Ids(u[..k]), k);
  }

  /** Helper for `RetainManyVisits`: removing the ids of the first `k` visits leaves
      the visits from `k` on. */
  lemma KeptSuffix<T>(kept: seq<Doc<T>>, u: seq<Doc<T>>, gone: set<Id>, front: set<Id>, k: nat)
    requires k <= |u|
    requires kept == WithoutIds(u, gone) && gone == front && WithoutIds(u, front) == u[k..]
    ensures kept == u[k..]
  {
  }

  /** With at most 50 visits the user keeps them all. */
  lemma RetainFewVisits(t: seq<Doc<VisitFields>>, user: string)
    requires |UserVisits(t, user)| <= RetainedVisits
    ensures UserVisits(Retain(t, user), user) == UserVisits(t, user)
  {
    RetainedUserVisits(t, user);
    OldVisitIds(t, user);
    WithoutIdsDisjoint(UserVisits(t, user), Ids(OldVisits(t, user)));
  }

  /** What the clean-up keeps of the user's visits is their visits without the
      deleted ids. */
  lemma RetainedUserVisits(t: seq<Doc<VisitFields>>, user: string)
    ensures UserVisits(Retain(t, user), user) == WithoutIds(UserVisits(t, user), Ids(OldVisits(t, user)))
  {
    FilterWithoutIds(t, Ids(OldVisits(t, user)), OfUser(user));
  }

  /** The clean-up leaves the visits of every other user as they were. */
  lemma RetainKeepsOthers(t: seq<Doc<VisitFields>>, user: string)
    requires UniqueIds(t)
    ensures Filter(Retain(t, user), OfOthers(user)) == Filter(t, OfOthers(user))
  {
    var stale := Ids(OldVisits(t, user));
    var others := Filter(t, OfOthers(user));
    FilterWithoutIds(t, stale, OfOthers(user));
    var ov := OldVisits(t, user);
    forall i | 0 <= i < |others| ensures others[i].id !in stale {
      forall j | 0 <= j < |ov| ensures ov[j].id != others[i].id {
        assert ov[j] == NewestFirst(t, user)[RetainedVisits + j];
        assert ov[j] in UserVisits(t, user);
        DistinctDocsDistinctIds(t, ov[j], others[i]);
      }
    }
    WithoutIdsDisjoint(others, stale);
  }

  /** The visit just inserted is the newest of its user, so the clean-up keeps it. */
  lemma NewVisitKept(t: seq<Doc<VisitFields>>, d: Doc<VisitFields>)
    requires UniqueIds(t + [d])
    ensures d in Retain(t + [d], d.fields.userId)
  {
    var user := d.fields.userId;
    FilterConcat(t, [d], OfUser(user));
    FilterSingleton(d, OfUser(user));
    var u := UserVisits(t + [d], user);
    assert u[|u| - 1] == d;
    RetainUserVisits(t + [d], user);
    var kept := UserVisits(Retain(t + [d], user), user);
    assert kept[|kept| - 1] == d;
  }

  /** The deletion step of `recordVisit`: deletes the given visits one at a time. */
  method DeleteVisits(db: Database, doomed: seq<Doc<VisitFields>>)
    requires db.Valid()
    modifies db
    ensures db.Valid()
    ensures db.pageVisits == WithoutIds(old(db.pageVisits), Ids(doomed))
    ensures db.nextId == old(db.nextId)
    ensures db.pages == old(db.pages) && db.calendars == old(db.calendars) && db.events == old(db.events)
  {
    ghost var t := db.pageVisits;
    ghost var gone: set<Id> := {};
    WithoutIdsDisjoint(t, {});
    var i := 0;
    while i < |doomed|
      invariant 0 <= i <= |doomed|
      invariant db.Valid()
      invariant gone == Ids(doomed[..i])
      invariant db.pageVisits == WithoutIds(t, gone)
      invariant db.nextId == old(db.nextId)
      invariant db.pages == old(db.pages) && db.calendars == old(db.calendars) && db.events == old(db.events)
    {
      db.DeleteVisit(doomed[i].id);
      WithoutIdsTwice(t, gone, doomed[i].id);
      IdsSnoc(doomed, i);
      gone := gone + {doomed[i].id};
      i := i + 1;
    }
    assert doomed[..|doomed|] == doomed;
  }

  /** `recordVisit`: fails with "Unauthorized" without an identity, changing nothing;
      otherwise inserts the visit at time `now`, then deletes the user's visits beyond
      the newest 50. */
  method RecordVisit(db: Database, identity: Option<string>, pageId: Id, now: int) returns (r: Result<(), string>)
    requires db.Valid()
    modifies db
    ensures db.Valid()
    ensures identity.None? ==> r == Err(Unauthorized)
    ensures identity.None? ==> db.pageVisits == old(db.pageVisits) && db.nextId == old(db.nextId)
    ensures identity.Some? ==> r.Ok? && db.nextId == old(db.nextId) + 1
    ensures identity.Some? ==>
              db.pageVisits == Retain(old(db.pageVisits) + [Doc(old(db.nextId), VisitFields(pageId, identity.value, now))],
                                      identity.value)
    ensures db.pages == old(db.pages) && db.calendars == old(db.calendars) && db.events == old(db.events)
  {
    if identity.None? {
      return Err(Unauthorized);
    }
    var user := identity.value;
    var _ := db.InsertVisit(VisitFields(pageId, user, now));
    DeleteVisits(db, OldVisits(db.pageVisits, user));
    r := Ok(());
  }

  /** A visit joined with its page: the page's fields plus the visit time. */
  datatype RecentVisit = RecentVisit(page: Doc<PageFields>, visitedAt: int)

  /** `visits.map(ctx.db.get(visit.pageId))` followed by the `null` filter: one entry
      per visit whose page exists, in visit order. */
  function JoinPages(visits: seq<Doc<VisitFields>>, pages: seq<Doc<PageFields>>): (r: seq<RecentVisit>)
    ensures |r| <= |visits|
    ensures forall i :: 0 <= i < |r| ==>
              (r[i].page in pages &&
               exists j :: 0 <= j < |visits| && visits[j].fields.pageId == r[i].page.id &&
                           visits[j].fields.visitedAt == r[i].visitedAt)
  {
    if visits == [] then []
    else
      var v := visits[|visits| - 1];
      var rest := JoinPages(visits[..|visits| - 1], pages);
      assert forall i :: 0 <= i < |visits| - 1 ==> visits[..|visits| - 1][i] == visits[i];
      match Get(pages, v.fields.pageId)
      case None => rest
      case Some(p) => rest + [RecentVisit(p, v.fields.visitedAt)]
  }

  /** Joining keeps visit order: the join of a concatenation is the concatenation
      of the joins. */
  lemma {:induction false} JoinPagesConcat(a: seq<Doc<VisitFields>>, b: seq<Doc<VisitFields>>, pages: seq<Doc<PageFields>>)
    ensures JoinPages(a + b, pages) == JoinPages(a, pages) + JoinPages(b, pages)
    decreases |b|
  {
    if b == [] {
      assert a + b == a;
    } else {
      var b' := b[..|b| - 1];
      assert (a + b)[..|a + b| - 1] == a + b';
      assert (a + b)[|a + b| - 1] == b[|b| - 1];
      JoinPagesConcat(a, b', pages);
    }
  }

  /** One step of the join: the last visit adds its page when the page exists. */
  lemma JoinPagesSnoc(init: seq<Doc<VisitFields>>, v: Doc<VisitFields>, pages: seq<Doc<PageFields>>)
    ensures JoinPages(init + [v], pages) ==
            JoinPages(init, pages) + match Get(pages, v.fields.pageId)
                                     case None => []
                                     case Some(p) => [RecentVisit(p, v.fields.visitedAt)]
  {
    assert (init + [v])[..|init + [v]| - 1] == init;
  }

  function HasPage(pages: seq<Doc<PageFields>>): Doc<VisitFields> -> bool {
    (v: Doc<VisitFields>) => v.fields.pageId in Ids(pages)
  }

  /** The join is the visits whose page exists, in visit order, each with its page
      and its visit time: the `null` entries are exactly the missing pages. */
  lemma {:induction false} JoinPagesFiltered(visits: seq<Doc<VisitFields>>, pages: seq<Doc<PageFields>>)
    ensures var f := Filter(visits, HasPage(pages));
            |JoinPages(visits, pages)| == |f| &&
            forall i :: 0 <= i < |f| ==>
              JoinPages(visits, pages)[i] == RecentVisit(Get(pages, f[i].fields.pageId).value, f[i].fields.visitedAt)
  {
    if visits != [] {
      var init, v := visits[..|visits| - 1], visits[|visits| - 1];
      assert visits == init + [v];
      JoinPagesFiltered(init, pages);
      JoinPagesSnoc(init, v, pages);
      FilterConcat(init, [v], HasPage(pages));
      FilterSingleton(v, HasPage(pages));
    }
  }

  /** When every visit's page exists, the join has one entry per visit, each the
      visit's page with the visit's time. */
  lemma {:induction false} JoinPagesAllPresent(visits: seq<Doc<VisitFields>>, pages: seq<Doc<PageFields>>)
    requires forall i :: 0 <= i < |visits| ==> visits[i].fields.pageId in Ids(pages)
    ensures |JoinPages(visits, pages)| == |visits|
    ensures forall i :: 0 <= i < |visits| ==>
              JoinPages(visits, pages)[i] == RecentVisit(Get(pages, visits[i].fields.pageId).value, visits[i].fields.visitedAt)
  {
    if visits != [] {
      var init, v := visits[..|visits| - 1], visits[|visits| - 1];
      assert visits == init + [v];
      JoinPagesAllPresent(init, pages);
      JoinPagesSnoc(init, v, pages);
      var g := Get(pages, v.fields.pageId);
      var front := JoinPages(init, pages);
      var j := JoinPages(visits, pages);
      assert j == front + [RecentVisit(g.value, v.fields.visitedAt)];
      forall i | 0 <= i < |visits|
        ensures j[i] == RecentVisit(Get(pages, visits[i].fields.pageId).value, visits[i].fields.visitedAt)
      {
        if i < |init| {
          assert j[i] == front[i] && visits[i] == init[i];
        }
      }
    }
  }

  /** `getRecentVisits`: "Unauthorized" without an identity; otherwise the newest
      `limit ?? 6` visits of the user that still have a page, newest first, each
      with its page and visit time. */
  function GetRecentVisits(pages: seq<Doc<PageFields>>, visits: seq<Doc<VisitFields>>, identity: Option<string>,
                           limit: Option<int>): (r: Result<seq<RecentVisit>, string>)
    ensures identity.None? <==> r.Err?
    ensures r.Err? ==> r.error == Unauthorized
    ensures r.Ok? ==> |r.value| <= |Take(NewestFirst(visits, identity.value), limit.GetOr(DefaultVisitLimit))|
    ensures r.Ok? ==> forall i :: 0 <= i < |r.value| ==>
              (r.value[i].page in pages &&
               exists v :: v in visits && v.fields.userId == identity.value &&
                           v.fields.pageId == r.value[i].page.id && v.fields.visitedAt == r.value[i].visitedAt)
    ensures r.Ok? ==>
              var f := Filter(Take(NewestFirst(visits, identity.value), limit.GetOr(DefaultVisitLimit)), HasPage(pages));
              |r.value| == |f| &&
              forall i :: 0 <= i < |f| ==>
                r.value[i] == RecentVisit(Get(pages, f[i].fields.pageId).value, f[i].fields.visitedAt)
  {
    match identity
    case None => Err(Unauthorized)
    case Some(user) =>
      var taken := Take(NewestFirst(visits, user), limit.GetOr(DefaultVisitLimit));
      var r := JoinPages(taken, pages);
      assert forall j :: 0 <= j < |taken| ==> taken[j] in UserVisits(visits, user);
      JoinPagesFiltered(taken, pages);
      Ok(r)
  }

  /** Without a limit at most six entries come back. */
  lemma DefaultLimitSix(pages: seq<Doc<PageFields>>, visits: seq<Doc<VisitFields>>, user: string)
    ensures |GetRecentVisits(pages, visits, Some(user), None).value| <= 6
  {
  }

  /** When all of the user's visited pages exist, `getRecentVisits` returns exactly
      the newest `limit` visits, newest first, each carrying its own time. */
  lemma RecentVisitsWhenPagesExist(pages: seq<Doc<PageFields>>, visits: seq<Doc<VisitFields>>, user: string, limit: int)
    requires forall i :: 0 <= i < |visits| && visits[i].fields.userId == user ==> visits[i].fields.pageId in Ids(pages)
    ensures var taken := Take(NewestFirst(visits, user), limit);
            var r := GetRecentVisits(pages, visits, Some(user), Some(limit)).value;
            |r| == |taken| &&
            forall i :: 0 <= i < |r| ==> r[i].page.id == taken[i].fields.pageId && r[i].visitedAt == taken[i].fields.visitedAt
  {
    var taken := Take(NewestFirst(visits, user), limit);
    forall i | 0 <= i < |taken| ensures taken[i].fields.pageId in Ids(pages) {
      assert taken[i] in UserVisits(visits, user);
    }
    JoinPagesAllPresent(taken, pages);
  }
}
