/**
 * Following and unfollowing (services/UserService.js, followUser and
 * unfollowUser).  Each call is one bulk write of two upserting updates: one on
 * the follower's document (its `following` set) and one on the followed
 * user's document (its `followers` set).  `$addToSet` is set union, `$pull` is
 * set difference, and the upsert creates a missing document.  The two updates
 * touch different fields, so their order does not matter; the model applies
 * them one after the other.  There is no check against following oneself.
 */
module FollowGraph {
  import opened Accounts

  /**
   * The store `r` differs from `s` only in `r[u].following` and
   * `r[f].followers`, and has at most the documents `u` and `f` added.
   */
  ghost predicate OnlyEdgeSetsChange(s: Store, r: Store, u: Id, f: Id)
  {
    && r.Keys == s.Keys + {u, f}
    && (forall x :: x in s && x != u && x != f ==> r[x] == s[x])
    && SameProfile(r[u], Doc(s, u))
    && SameProfile(r[f], Doc(s, f))
    && (u != f ==> r[u].followers == Doc(s, u).followers && r[f].following == Doc(s, f).following)
  }

  /** The `$addToSet` update on the follower's document. */
  function AddFollowing(s: Store, u: Id, f: Id): Store
  {
    var d := Doc(s, u);
    s[u := d.(following := d.following + {f})]
  }

  /** The `$addToSet` update on the followed user's document. */
  function AddFollower(s: Store, f: Id, u: Id): Store
  {
    var d := Doc(s, f);
    s[f := d.(followers := d.followers + {u})]
  }

  /** The `$pull` update on the follower's document. */
  function PullFollowing(s: Store, u: Id, f: Id): Store
  {
    var d := Doc(s, u);
    s[u := d.(following := d.following - {f})]
  }

  /** The `$pull` update on the followed user's document. */
  function PullFollower(s: Store, f: Id, u: Id): Store
  {
    var d := Doc(s, f);
    s[f := d.(followers := d.followers - {u})]
  }

  /** `u` starts following `f`. */
  function FollowUser(s: Store, u: Id, f: Id): (r: Store)
    ensures u in r && f in r
    ensures f in r[u].following && u in r[f].followers
    ensures r[u].following == Doc(s, u).following + {f}
    ensures r[f].followers == Doc(s, f).followers + {u}
    ensures OnlyEdgeSetsChange(s, r, u, f)
  {
    AddFollower(AddFollowing(s, u, f), f, u)
  }

  /** `u` stops following `f`. */
  function UnfollowUser(s: Store, u: Id, f: Id): (r: Store)
    ensures u in r && f in r
    ensures f !in r[u].following && u !in r[f].followers
    ensures r[u].following == Doc(s, u).following - {f}
    ensures r[f].followers == Doc(s, f).followers - {u}
    ensures OnlyEdgeSetsChange(s, r, u, f)
  {
    PullFollower(PullFollowing(s, u, f), f, u)
  }

  /** Upsert: a follower without a document gets one whose `following` is exactly the new edge. */
  lemma FollowCreatesFollowerDoc(s: Store, u: Id, f: Id)
    requires u !in s
    ensures var r := FollowUser(s, u, f);
      u in r && r[u].following == {f} && SameProfile(r[u], Blank)
  {
  }

  /** Upsert: a followed user without a document gets one whose `followers` is exactly the new edge. */
  lemma FollowCreatesFollowedDoc(s: Store, u: Id, f: Id)
    requires f !in s
    ensures var r := FollowUser(s, u, f);
      f in r && r[f].followers == {u} && SameProfile(r[f], Blank)
  {
  }

  /** Nothing stops a user from following themself: the edge is recorded on both sides of one document. */
  lemma SelfFollowIsRecorded(s: Store, u: Id)
    ensures var r := FollowUser(s, u, u);
      u in r && u in r[u].following && u in r[u].followers
  {
  }

  /** Following an edge that is already present, between existing documents, changes nothing. */
  lemma {:induction false} FollowPresentEdgeIsNoop(s: Store, u: Id, f: Id)
    requires u in s && f in s
    requires f in s[u].following && u in s[f].followers
    ensures FollowUser(s, u, f) == s
  {
    var r := FollowUser(s, u, f);
    assert r.Keys == s.Keys;
    forall x | x in s
      ensures r[x] == s[x]
    {
      if x == u || x == f {
        assert r[x].following == s[x].following;
        assert r[x].followers == s[x].followers;
      }
    }
  }

  /** Following is idempotent: `$addToSet` twice is `$addToSet` once. */
  lemma {:induction false} FollowIdempotent(s: Store, u: Id, f: Id)
    ensures FollowUser(FollowUser(s, u, f), u, f) == FollowUser(s, u, f)
  {
    var r := FollowUser(s, u, f);
    FollowPresentEdgeIsNoop(r, u, f);
  }

  /** Unfollowing an absent edge, between existing documents, changes nothing. */
  lemma {:induction false} UnfollowAbsentEdgeIsNoop(s: Store, u: Id, f: Id)
    requires u in s && f in s
    requires f !in s[u].following && u !in s[f].followers
    ensures UnfollowUser(s, u, f) == s
  {
    var r := UnfollowUser(s, u, f);
    assert r.Keys == s.Keys;
    forall x | x in s
      ensures r[x] == s[x]
    {
      if x == u || x == f {
        assert r[x].following == s[x].following;
        assert r[x].followers == s[x].followers;
      }
    }
  }

  /** Unfollowing is idempotent: `$pull` twice is `$pull` once. */
  lemma {:induction false} UnfollowIdempotent(s: Store, u: Id, f: Id)
    ensures UnfollowUser(UnfollowUser(s, u, f), u, f) == UnfollowUser(s, u, f)
  {
    var r := UnfollowUser(s, u, f);
    UnfollowAbsentEdgeIsNoop(r, u, f);
  }

  /**
   * Unfollowing right after following gives the same store as unfollowing
   * alone: the union and the difference cancel on the edge.
   */
  lemma {:induction false} UnfollowAfterFollow(s: Store, u: Id, f: Id)
    ensures UnfollowUser(FollowUser(s, u, f), u, f) == UnfollowUser(s, u, f)
  {
    var a := UnfollowUser(FollowUser(s, u, f), u, f);
    var b := UnfollowUser(s, u, f);
    assert a.Keys == b.Keys;
    forall x | x in a
      ensures a[x] == b[x]
    {
      if x == u || x == f {
        assert a[x].following == b[x].following;
        assert a[x].followers == b[x].followers;
      }
    }
  }

  /** Following right after unfollowing gives the same store as following alone. */
  lemma {:induction false} FollowAfterUnfollow(s: Store, u: Id, f: Id)
    ensures FollowUser(UnfollowUser(s, u, f), u, f) == FollowUser(s, u, f)
  {
    var a := FollowUser(UnfollowUser(s, u, f), u, f);
    var b := FollowUser(s, u, f);
    assert a.Keys == b.Keys;
    forall x | x in a
      ensures a[x] == b[x]
    {
      if x == u || x == f {
        assert a[x].following == b[x].following;
        assert a[x].followers == b[x].followers;
      }
    }
  }

  /**
   * Round trip: on existing documents that do not yet hold the edge, following
   * and then unfollowing restores the store exactly.
   */
  lemma {:induction false} FollowUnfollowRoundTrip(s: Store, u: Id, f: Id)
    requires u in s && f in s
    requires f !in s[u].following && u !in s[f].followers
    ensures UnfollowUser(FollowUser(s, u, f), u, f) == s
  {
    UnfollowAfterFollow(s, u, f);
    UnfollowAbsentEdgeIsNoop(s, u, f);
  }

  /** Following keeps the follow graph symmetric and closed. */
  lemma {:induction false} FollowPreservesConsistency(s: Store, u: Id, f: Id)
    requires Consistent(s)
    ensures Consistent(FollowUser(s, u, f))
  {
    var r := FollowUser(s, u, f);
    forall a, b | a in r && b in r[a].following
      ensures b in r && a in r[b].followers
    {
      if a == u && b == f {
      } else {
        assert a in s && b in s[a].following;
      }
    }
    forall a, b | a in r && b in r[a].followers
      ensures b in r && a in r[b].following
    {
      if a == f && b == u {
      } else {
        assert a in s && b in s[a].followers;
      }
    }
  }

  /** Unfollowing keeps the follow graph symmetric and closed. */
  lemma {:induction false} UnfollowPreservesConsistency(s: Store, u: Id, f: Id)
    requires Consistent(s)
    ensures Consistent(UnfollowUser(s, u, f))
  {
    var r := UnfollowUser(s, u, f);
    forall a, b | a in r && b in r[a].following
      ensures b in r && a in r[b].followers
    {
      assert a in s && b in s[a].following;
    }
    forall a, b | a in r && b in r[a].followers
      ensures b in r && a in r[b].following
    {
      assert a in s && b in s[a].followers;
    }
  }

  /** Following never makes two documents share a user name or an email. */
  lemma {:induction false} FollowPreservesUniqueness(s: Store, u: Id, f: Id)
    requires Unique(s)
    ensures Unique(FollowUser(s, u, f))
  {
    var r := FollowUser(s, u, f);
    forall a, b | a in r && b in r && a != b
      ensures r[a].userName.Some? ==> r[a].userName != r[b].userName
      ensures r[a].email.Some? ==> r[a].email != r[b].email
    {
      assert SameProfile(r[a], Doc(s, a)) && SameProfile(r[b], Doc(s, b));
    }
  }

  /** Unfollowing never makes two documents share a user name or an email. */
  lemma {:induction false} UnfollowPreservesUniqueness(s: Store, u: Id, f: Id)
    requires Unique(s)
    ensures Unique(UnfollowUser(s, u, f))
  {
    var r := UnfollowUser(s, u, f);
    forall a, b | a in r && b in r && a != b
      ensures r[a].userName.Some? ==> r[a].userName != r[b].userName
      ensures r[a].email.Some? ==> r[a].email != r[b].email
    {
      assert SameProfile(r[a], Doc(s, a)) && SameProfile(r[b], Doc(s, b));
    }
  }
}
