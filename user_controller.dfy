/** The matching engine's HTTP controllers: the feed, recording a swipe,
    the pending likes, answering a like, and the matches. Each Mongo query
    becomes the set or sequence it denotes over the Swipe and User
    collections. */
module UserController {
  import opened Common
  import opened UserModel
  import opened SwipeModel
  import opened Http

  /** `a` has swiped `b` in direction `d`, according to the ledger. */
  predicate Swiped(ledger: map<Pair, Direction>, a: UserId, b: UserId, d: Direction) {
    (a, b) in ledger && ledger[(a, b)] == d
  }

  /** A match is derived, never stored: both users swiped each other right. */
  predicate IsMatch(ledger: map<Pair, Direction>, a: UserId, b: UserId) {
    Swiped(ledger, a, b, Right) && Swiped(ledger, b, a, Right)
  }

  // ---------------------------------------------------------------------
  // The Swipe queries, as sets over the collection

  /** `Swipe.find({ swipedBy: me, direction: d })`, mapped to `swipedUser`:
      under the unique index, exactly the users the ledger says `me` swiped
      in direction `d`. */
  function TargetsOf(docs: seq<Swipe>, me: UserId, d: Direction): (targets: set<UserId>)
    ensures UniquePairs(docs) ==> forall x :: x in targets <==> Swiped(Ledger(docs), me, x, d)
  {
    var targets := set s | s in docs && s.swipedBy == me && s.direction == d :: s.swipedUser;
    assert UniquePairs(docs) ==> forall x :: x in targets <==> Swiped(Ledger(docs), me, x, d) by {
      if UniquePairs(docs) {
        forall x: UserId ensures x in targets <==> Swiped(Ledger(docs), me, x, d) {
          if x in targets {
            var s :| s in docs && s.swipedBy == me && s.direction == d && s.swipedUser == x;
            LedgerHas(docs, s);
          }
          if Swiped(Ledger(docs), me, x, d) {
            LedgerEntry(docs, (me, x));
          }
        }
      }
    }
    targets
  }

  /** `Swipe.find({ swipedUser: me, direction: "right" }).distinct("swipedBy")`:
      under the unique index, exactly the users the ledger says swiped `me`
      right. */
  function LikersOf(docs: seq<Swipe>, me: UserId): (likers: set<UserId>)
    ensures UniquePairs(docs) ==> forall x :: x in likers <==> Swiped(Ledger(docs), x, me, Right)
  {
    var likers := set s | s in docs && s.swipedUser == me && s.direction == Right :: s.swipedBy;
    assert UniquePairs(docs) ==> forall x :: x in likers <==> Swiped(Ledger(docs), x, me, Right) by {
      if UniquePairs(docs) {
        forall x: UserId ensures x in likers <==> Swiped(Ledger(docs), x, me, Right) {
          if x in likers {
            var s :| s in docs && s.swipedUser == me && s.direction == Right && s.swipedBy == x;
            LedgerHas(docs, s);
          }
          if Swiped(Ledger(docs), x, me, Right) {
            LedgerEntry(docs, (x, me));
          }
        }
      }
    }
    likers
  }

  /** `Swipe.find({ swipedBy: me, direction: { $in: ["left", "right"] } })
      .distinct("swipedUser")`: exactly the users `me` has a ledger entry
      for, either way. */
  function RespondedTo(docs: seq<Swipe>, me: UserId): (responded: set<UserId>)
    ensures forall x :: x in responded <==> (me, x) in Ledger(docs)
  {
    var responded := set s | s in docs && s.swipedBy == me :: s.swipedUser;
    assert forall x :: x in responded <==> (me, x) in Ledger(docs) by {
      forall x: UserId ensures x in responded <==> (me, x) in Ledger(docs) {
        if (me, x) in Ledger(docs) {
          var s :| s in docs && Key(s) == (me, x);
        }
      }
    }
    responded
  }

  /** The feed's third query: among the users `me` swiped right, those who
      swiped `me` right. Under the unique index, exactly `me`'s matches. */
  function MatchedWith(docs: seq<Swipe>, me: UserId): (matched: set<UserId>)
    ensures UniquePairs(docs) ==> forall x :: x in matched <==> IsMatch(Ledger(docs), me, x)
  {
    var rightSwiped := TargetsOf(docs, me, Right);
    var matched := set s | s in docs && s.swipedBy in rightSwiped && s.swipedUser == me && s.direction == Right
                     :: s.swipedBy;
    assert UniquePairs(docs) ==> forall x :: x in matched <==> IsMatch(Ledger(docs), me, x) by {
      if UniquePairs(docs) {
        forall x: UserId ensures x in matched <==> IsMatch(Ledger(docs), me, x) {
          if IsMatch(Ledger(docs), me, x) {
            assert x in LikersOf(docs, me);
            var s :| s in docs && s.swipedUser == me && s.direction == Right && s.swipedBy == x;
            assert s.swipedBy in rightSwiped;
          }
        }
      }
    }
    matched
  }

  /** `Swipe.findOne({ swipedBy: a, swipedUser: b, direction: "right" })`
      finds a document: under the unique index, exactly when the ledger
      holds a right swipe of `a` on `b`. */
  function HasRightSwipe(docs: seq<Swipe>, a: UserId, b: UserId): (found: bool)
    ensures UniquePairs(docs) ==> (found <==> Swiped(Ledger(docs), a, b, Right))
  {
    var found := exists s :: s in docs && Key(s) == (a, b) && s.direction == Right;
    assert UniquePairs(docs) ==> (found <==> Swiped(Ledger(docs), a, b, Right)) by {
      if UniquePairs(docs) {
        if found {
          var s :| s in docs && Key(s) == (a, b) && s.direction == Right;
          LedgerHas(docs, s);
        }
        if Swiped(Ledger(docs), a, b, Right) {
          LedgerEntry(docs, (a, b));
        }
      }
    }
    found
  }

  // ---------------------------------------------------------------------
  // getFeed

  /** The feed's user query as the controller writes it, `$or` clause
      included: not excluded, not the caller's email, of the preferred
      gender, and either right-swiped or not right-swiped. */
  predicate FeedQueryAsWritten(u: User, excluded: set<UserId>, rightSwiped: set<UserId>,
                               email: string, preference: GenderPreference) {
    && u.id !in excluded
    && u.email != email
    && Accepts(preference, u.gender)
    && (u.id in rightSwiped || u.id !in rightSwiped)
  }

  /** The same query with the `$or` clause dropped. */
  predicate FeedQuery(u: User, excluded: set<UserId>, email: string, preference: GenderPreference) {
    u.id !in excluded && u.email != email && Accepts(preference, u.gender)
  }

  /** The `$or` of "right-swiped" and "not right-swiped" admits every user:
      dropping it leaves the query unchanged. */
  lemma OrClauseAdmitsAll(u: User, excluded: set<UserId>, rightSwiped: set<UserId>,
                          email: string, preference: GenderPreference)
    ensures FeedQueryAsWritten(u, excluded, rightSwiped, email, preference) <==>
            FeedQuery(u, excluded, email, preference)
  {
  }

  /** `User.find(query)` in collection order. Under the unique index its
      users are exactly the stored users of the preferred gender, other than
      the token's email, whom `me` has not swiped left and is not matched
      with: right-swiped but unmatched users stay eligible. */
  function FeedCandidates(users: seq<User>, docs: seq<Swipe>, me: UserId, email: string,
                          preference: GenderPreference): (candidates: seq<User>)
    ensures |candidates| <= |users|
    ensures UniquePairs(docs) ==> forall u :: u in candidates <==>
      && u in users
      && u.email != email
      && Accepts(preference, u.gender)
      && !Swiped(Ledger(docs), me, u.id, Left)
      && !IsMatch(Ledger(docs), me, u.id)
  {
    var excluded := TargetsOf(docs, me, Left) + MatchedWith(docs, me);
    Filter(users, u => FeedQuery(u, excluded, email, preference))
  }

  /** Under the unique email index the email filter drops the caller alone:
      every other stored user who passes the gender and swipe filters is a
      candidate. */
  lemma EmailExcludesOnlyCaller(users: seq<User>, docs: seq<Swipe>, caller: User,
                                preference: GenderPreference)
    requires Directory(users) && caller in users && UniquePairs(docs)
    ensures var candidates := FeedCandidates(users, docs, caller.id, caller.email, preference);
      && caller !in candidates
      && forall u :: u in users && u.id != caller.id && Accepts(preference, u.gender) &&
                     !Swiped(Ledger(docs), caller.id, u.id, Left) && !IsMatch(Ledger(docs), caller.id, u.id)
                     ==> u in candidates
  {
    forall u | u in users && u.id != caller.id
      ensures u.email != caller.email
    {
      var i :| 0 <= i < |users| && users[i] == u;
      var j :| 0 <= j < |users| && users[j] == caller;
      assert i != j;
    }
  }

  /** The users of a page, without their passwords. */
  function Profiles(page: seq<User>): (r: seq<Profile>)
    ensures |r| == |page|
    ensures forall k :: 0 <= k < |page| ==> r[k] == ToProfile(page[k])
  {
    seq(|page|, k requires 0 <= k < |page| => ToProfile(page[k]))
  }

  datatype FeedReply = FeedReply(
    users: seq<Profile>,
    totalUsers: nat,
    totalPages: int,
    currentPage: int)

  /** The feed page of the authorized caller `me`, who prefers `preference`:
      a window of `FeedCandidates`, without passwords. */
  function FeedWindow(users: seq<User>, docs: seq<Swipe>, me: UserId, email: string,
                      preference: GenderPreference, page: int, limit: int): (r: Result<FeedReply>)
    requires limit != 0
    ensures r.Ok? <==> Skip(page, limit) >= 0
    ensures r.Err? ==> r.error == ServerError
    ensures r.Ok? ==>
      && var candidates, skip := FeedCandidates(users, docs, me, email, preference), Skip(page, limit);
      && |r.value.users| == Min(Abs(limit), Max(0, |candidates| - skip))
      && (forall k :: 0 <= k < |r.value.users| ==>
            0 <= skip + k < |candidates| && r.value.users[k] == ToProfile(candidates[skip + k]))
      && r.value.totalUsers == |candidates|
      && r.value.totalPages == TotalPages(|candidates|, limit)
      && r.value.currentPage == page
    ensures r.Ok? && UniquePairs(docs) ==> forall p :: p in r.value.users ==>
      && p.email != email
      && Accepts(preference, p.gender)
      && !Swiped(Ledger(docs), me, p.id, Left)
      && !IsMatch(Ledger(docs), me, p.id)
  {
    var candidates := FeedCandidates(users, docs, me, email, preference);
    match Page(candidates, Skip(page, limit), limit)
    case Err(e) => Err(e)
    case Ok(window) =>
      var profiles := Profiles(window);
      assert UniquePairs(docs) ==> forall p :: p in profiles ==>
        && p.email != email
        && Accepts(preference, p.gender)
        && !Swiped(Ledger(docs), me, p.id, Left)
        && !IsMatch(Ledger(docs), me, p.id)
      by {
        if UniquePairs(docs) {
          forall p | p in profiles
            ensures p.email != email && Accepts(preference, p.gender)
            ensures !Swiped(Ledger(docs), me, p.id, Left) && !IsMatch(Ledger(docs), me, p.id)
          {
            var k :| 0 <= k < |profiles| && profiles[k] == p;
            assert window[k] == candidates[Skip(page, limit) + k];
            assert window[k] in candidates;
          }
        }
      }
      Ok(FeedReply(profiles, |candidates|, TotalPages(|candidates|, limit), page))
  }

  /** getFeed up to, but not including, the shuffle of the page: a caller
      without a gender preference gets 400. */
  function FeedPage(users: seq<User>, docs: seq<Swipe>, verify: Verifier, header: Option<string>,
                    pageParam: Option<int>, limitParam: Option<int>): (r: Result<FeedReply>)
    ensures var auth := Authorize(header, verify, users);
      auth.Err? ==> r == Err(auth.error)
    ensures var auth := Authorize(header, verify, users);
      auth.Ok? && auth.value.user.genderPreference.None? ==> r == Err(BadRequest)
    ensures var auth := Authorize(header, verify, users);
      auth.Ok? && auth.value.user.genderPreference.Some? ==>
        (r.Ok? <==> Skip(PageNumber(pageParam), PageSize(limitParam)) >= 0) &&
        (r.Err? ==> r.error == ServerError)
    ensures var auth := Authorize(header, verify, users);
      r.Ok? ==>
        && auth.Ok? && auth.value.user.genderPreference.Some?
        && var candidates := FeedCandidates(users, docs, auth.value.user.id,
                                            auth.value.claims.email,
                                            auth.value.user.genderPreference.value);
           var skip := Skip(PageNumber(pageParam), PageSize(limitParam));
           && |r.value.users| == Min(Abs(PageSize(limitParam)), Max(0, |candidates| - skip))
           && (forall k :: 0 <= k < |r.value.users| ==>
                 0 <= skip + k < |candidates| && r.value.users[k] == ToProfile(candidates[skip + k]))
           && r.value.totalUsers == |candidates|
           && r.value.totalPages == TotalPages(|candidates|, PageSize(limitParam))
           && r.value.currentPage == PageNumber(pageParam)
    ensures var auth := Authorize(header, verify, users);
      r.Ok? && UniquePairs(docs) ==>
        && auth.Ok? && auth.value.user.genderPreference.Some?
        && forall p :: p in r.value.users ==>
             && p.email != auth.value.claims.email
             && Accepts(auth.value.user.genderPreference.value, p.gender)
             && !Swiped(Ledger(docs), auth.value.user.id, p.id, Left)
             && !IsMatch(Ledger(docs), auth.value.user.id, p.id)
  {
    match Authorize(header, verify, users)
    case Err(e) => Err(e)
    case Ok(session) =>
      match session.user.genderPreference
      case None => Err(BadRequest)
      case Some(preference) =>
        FeedWindow(users, docs, session.user.id, session.claims.email, preference,
                   PageNumber(pageParam), PageSize(limitParam))
  }

  /** The Fisher-Yates loop of getFeed, shuffling the page in place. The
      random index `Math.floor(Math.random() * (i + 1))` is a
      nondeterministic choice in `[0, i]`. */
  method Shuffle<T>(a: array<T>)
    modifies a
    ensures multiset(a[..]) == multiset(old(a[..]))
  {
    var i := a.Length - 1;
    while i > 0
      invariant i < a.Length
      invariant multiset(a[..]) == multiset(old(a[..]))
    {
      var j :| 0 <= j <= i;
      a[i], a[j] := a[j], a[i];
      i := i - 1;
    }
  }

  /** getFeed: the reply of `FeedPage` with its page shuffled. */
  method GetFeed(users: seq<User>, docs: seq<Swipe>, verify: Verifier, header: Option<string>,
                 pageParam: Option<int>, limitParam: Option<int>) returns (r: Result<FeedReply>)
    ensures var unshuffled := FeedPage(users, docs, verify, header, pageParam, limitParam);
      && (unshuffled.Err? ==> r == unshuffled)
      && (unshuffled.Ok? ==>
            && r.Ok?
            && multiset(r.value.users) == multiset(unshuffled.value.users)
            && |r.value.users| == |unshuffled.value.users| <= Abs(PageSize(limitParam))
            && r.value.(users := unshuffled.value.users) == unshuffled.value)
  {
    var unshuffled := FeedPage(users, docs, verify, header, pageParam, limitParam);
    if unshuffled.Err? {
      return unshuffled;
    }
    var reply := unshuffled.value;
    var a := new Profile[|reply.users|](k requires 0 <= k < |reply.users| => reply.users[k]);
    assert a[..] == reply.users;
    Shuffle(a);
    r := Ok(reply.(users := a[..]));
  }

  // ---------------------------------------------------------------------
  // swipeUser

  datatype SwipeReply = SwipeReply(matched: bool)

  /** swipeUser: authorize, validate the direction, upsert the pair's swipe,
      then report "It's a match" when a right swipe meets a right swipe back. */
  method SwipeUser(store: SwipeCollection, users: seq<User>, verify: Verifier,
                   header: Option<string>, swipedUserId: UserId, direction: string)
    returns (r: Result<SwipeReply>)
    requires store.Valid()
    modifies store
    ensures store.Valid()
    ensures var auth := Authorize(header, verify, users);
      auth.Err? ==> r == Err(auth.error) && store.docs == old(store.docs)
    ensures var auth := Authorize(header, verify, users);
      auth.Ok? && ParseDirection(direction).None? ==>
        r == Err(BadRequest) && store.docs == old(store.docs)
    ensures var auth := Authorize(header, verify, users);
      auth.Ok? && ParseDirection(direction).Some? ==>
        && r.Ok?
        && var me, d := auth.value.user.id, ParseDirection(direction).value;
           && Ledger(store.docs) == old(Ledger(store.docs))[(me, swipedUserId) := d]
           && |Entries(store.docs, (me, swipedUserId))| == 1
           && (Swiped(old(Ledger(store.docs)), me, swipedUserId, d) ==> store.docs == old(store.docs))
           && (r.value.matched <==> d == Right && Swiped(Ledger(store.docs), swipedUserId, me, Right))
  {
    var auth := Authorize(header, verify, users);
    if auth.Err? {
      return Err(auth.error);
    }
    var parsed := ParseDirection(direction);
    if parsed.None? {
      return Err(BadRequest);
    }
    var me, d := auth.value.user.id, parsed.value;
    store.SaveSwipe(me, swipedUserId, d);
    var matched := false;
    if d == Right {
      matched := HasRightSwipe(store.docs, swipedUserId, me);
    }
    r := Ok(SwipeReply(matched));
  }

  // ---------------------------------------------------------------------
  // getLikedBy and getMatches

  /** The documents getLikedBy pages through: the right swipes on `me` by
      users `me` has not swiped either way, newest first. */
  function PendingLikes(docs: seq<Swipe>, me: UserId): (pending: seq<Swipe>)
    ensures forall s :: s in pending <==>
      s in docs && s.swipedUser == me && s.direction == Right && (me, s.swipedBy) !in Ledger(docs)
    ensures Chronological(docs) ==>
      forall i, j :: 0 <= i < j < |pending| ==> pending[i].createdAt > pending[j].createdAt
    ensures UniquePairs(docs) ==> UniquePairs(pending)
  {
    var responded := RespondedTo(docs, me);
    var keep := (s: Swipe) => s.swipedUser == me && s.direction == Right && s.swipedBy !in responded;
    NewestFirstMembers(docs, keep);
    NewestFirstOrder(docs, keep);
    assert Chronological(docs) ==> var r := Reverse(Filter(docs, keep));
      forall i, j :: 0 <= i < j < |r| ==> r[i].createdAt > r[j].createdAt;
    assert UniquePairs(docs) ==> UniquePairs(Reverse(Filter(docs, keep))) by {
      if UniquePairs(docs) {
        NewestFirstDistinct(docs, keep);
      }
    }
    Reverse(Filter(docs, keep))
  }

  /** The documents getMatches pages through: `me`'s right swipes on users
      who swiped `me` right, newest first. */
  function MutualLikes(docs: seq<Swipe>, me: UserId): (mutual: seq<Swipe>)
    ensures UniquePairs(docs) ==> forall s :: s in mutual <==>
      s in docs && s.swipedBy == me && s.direction == Right && Swiped(Ledger(docs), s.swipedUser, me, Right)
    ensures Chronological(docs) ==>
      forall i, j :: 0 <= i < j < |mutual| ==> mutual[i].createdAt > mutual[j].createdAt
    ensures UniquePairs(docs) ==> UniquePairs(mutual)
  {
    var likers := LikersOf(docs, me);
    var keep := (s: Swipe) => s.swipedBy == me && s.swipedUser in likers && s.direction == Right;
    NewestFirstMembers(docs, keep);
    NewestFirstOrder(docs, keep);
    assert Chronological(docs) ==> var r := Reverse(Filter(docs, keep));
      forall i, j :: 0 <= i < j < |r| ==> r[i].createdAt > r[j].createdAt;
    assert UniquePairs(docs) ==> UniquePairs(Reverse(Filter(docs, keep))) by {
      if UniquePairs(docs) {
        NewestFirstDistinct(docs, keep);
      }
    }
    Reverse(Filter(docs, keep))
  }

  /** `.map(swipe => swipe.swipedBy)`. */
  function Swipers(page: seq<Swipe>): (ids: seq<UserId>)
    ensures |ids| == |page| && forall k :: 0 <= k < |page| ==> ids[k] == page[k].swipedBy
  {
    seq(|page|, k requires 0 <= k < |page| => page[k].swipedBy)
  }

  /** `.map(match => match.swipedUser)`. */
  function Swipees(page: seq<Swipe>): (ids: seq<UserId>)
    ensures |ids| == |page| && forall k :: 0 <= k < |page| ==> ids[k] == page[k].swipedUser
  {
    seq(|page|, k requires 0 <= k < |page| => page[k].swipedUser)
  }

  /** A newest-first query result holds exactly the documents it selects. */
  lemma NewestFirstMembers(docs: seq<Swipe>, keep: Swipe -> bool)
    ensures forall s :: s in Reverse(Filter(docs, keep)) <==> s in docs && keep(s)
  {
    var r := Reverse(Filter(docs, keep));
    forall s ensures s in r <==> s in Filter(docs, keep) {
      assert s in r <==> s in multiset(r);
    }
  }

  /** `.sort({ createdAt: -1 })` over a chronological collection: a
      newest-first query result runs from the newest document to the oldest. */
  lemma NewestFirstOrder(docs: seq<Swipe>, keep: Swipe -> bool)
    ensures Chronological(docs) ==> var r := Reverse(Filter(docs, keep));
      forall i, j :: 0 <= i < j < |r| ==> r[i].createdAt > r[j].createdAt
  {
    if Chronological(docs) {
      var kept := Filter(docs, keep);
      FilterKeepsOrder(docs, keep, (s: Swipe, t: Swipe) => s.createdAt < t.createdAt);
      var r := Reverse(kept);
      forall i, j | 0 <= i < j < |r| ensures r[i].createdAt > r[j].createdAt {
        assert kept[|kept| - 1 - j].createdAt < kept[|kept| - 1 - i].createdAt;
      }
    }
  }

  /** Under the unique index a newest-first query result holds each pair at
      most once. */
  lemma NewestFirstDistinct(docs: seq<Swipe>, keep: Swipe -> bool)
    requires UniquePairs(docs)
    ensures UniquePairs(Reverse(Filter(docs, keep)))
  {
    var kept := Filter(docs, keep);
    FilterKeepsOrder(docs, keep, (s: Swipe, t: Swipe) => Key(s) != Key(t));
    var r := Reverse(kept);
    forall i, j | 0 <= i < j < |r| ensures Key(r[i]) != Key(r[j]) {
      assert Key(kept[|kept| - 1 - j]) != Key(kept[|kept| - 1 - i]);
    }
  }

  /** The liked-by list is exactly the users who swiped `me` right and whom
      `me` has not swiped, each once. */
  lemma LikedByIsPending(docs: seq<Swipe>, me: UserId)
    requires UniquePairs(docs)
    ensures forall x :: x in Swipers(PendingLikes(docs, me)) <==>
              Swiped(Ledger(docs), x, me, Right) && (me, x) !in Ledger(docs)
    ensures NoDups(Swipers(PendingLikes(docs, me)))
  {
    var pending := PendingLikes(docs, me);
    var ids := Swipers(pending);
    forall x: UserId ensures x in ids <==> Swiped(Ledger(docs), x, me, Right) && (me, x) !in Ledger(docs) {
      if x in ids {
        var k :| 0 <= k < |ids| && ids[k] == x;
        assert pending[k] in pending;
        LedgerHas(docs, pending[k]);
      }
      if Swiped(Ledger(docs), x, me, Right) && (me, x) !in Ledger(docs) {
        LedgerEntry(docs, (x, me));
        var s :| s in docs && Key(s) == (x, me) && s.direction == Right;
        assert s in pending;
        var k :| 0 <= k < |pending| && pending[k] == s;
        assert ids[k] == x;
      }
    }
    forall i, j | 0 <= i < j < |ids| ensures ids[i] != ids[j] {
      assert Key(pending[i]) != Key(pending[j]);
      assert pending[i] in pending && pending[j] in pending;
    }
  }

  /** The matches list is exactly the users `me` is matched with, each once. */
  lemma MatchesAreMutual(docs: seq<Swipe>, me: UserId)
    requires UniquePairs(docs)
    ensures forall x :: x in Swipees(MutualLikes(docs, me)) <==> IsMatch(Ledger(docs), me, x)
    ensures NoDups(Swipees(MutualLikes(docs, me)))
  {
    var mutual := MutualLikes(docs, me);
    var ids := Swipees(mutual);
    forall x: UserId ensures x in ids <==> IsMatch(Ledger(docs), me, x) {
      if x in ids {
        var k :| 0 <= k < |ids| && ids[k] == x;
        assert mutual[k] in mutual;
        LedgerHas(docs, mutual[k]);
      }
      if IsMatch(Ledger(docs), me, x) {
        LedgerEntry(docs, (me, x));
        var s :| s in docs && Key(s) == (me, x) && s.direction == Right;
        assert s in mutual;
        var k :| 0 <= k < |mutual| && mutual[k] == s;
        assert ids[k] == x;
      }
    }
    forall i, j | 0 <= i < j < |ids| ensures ids[i] != ids[j] {
      assert Key(mutual[i]) != Key(mutual[j]);
      assert mutual[i] in mutual && mutual[j] in mutual;
    }
  }

  datatype ListReply = ListReply(
    users: seq<UserId>,
    total: nat,
    totalPages: int,
    currentPage: int)

  /** The paging tail shared by getLikedBy and getMatches. */
  function ListPage(ids: seq<UserId>, page: int, limit: int): (r: Result<ListReply>)
    requires limit != 0
    ensures r.Ok? <==> Skip(page, limit) >= 0
    ensures r.Err? ==> r.error == ServerError
    ensures r.Ok? ==>
      && |r.value.users| == Min(Abs(limit), Max(0, |ids| - Skip(page, limit)))
      && (forall k :: 0 <= k < |r.value.users| ==> r.value.users[k] == ids[Skip(page, limit) + k])
      && (forall x :: x in r.value.users ==> x in ids)
      && r.value.total == |ids|
      && r.value.totalPages == TotalPages(|ids|, limit)
      && r.value.currentPage == page
  {
    match Page(ids, Skip(page, limit), limit)
    case Err(e) => Err(e)
    case Ok(window) =>
      assert forall x :: x in window ==> x in ids by {
        forall x | x in window ensures x in ids {
          var k :| 0 <= k < |window| && window[k] == x;
          assert window[k] == ids[Skip(page, limit) + k];
        }
      }
      Ok(ListReply(window, |ids|, TotalPages(|ids|, limit), page))
  }

  /** The reply of getLikedBy for the authorized caller `me`: a page of the
      swipers of `PendingLikes`, each of whom swiped `me` right unanswered. */
  function LikedByList(docs: seq<Swipe>, me: UserId, page: int, limit: int): (r: Result<ListReply>)
    requires limit != 0
    ensures r.Ok? <==> Skip(page, limit) >= 0
    ensures r.Err? ==> r.error == ServerError
    ensures r.Ok? ==>
      && var pending, skip := PendingLikes(docs, me), Skip(page, limit);
      && |r.value.users| == Min(Abs(limit), Max(0, |pending| - skip))
      && (forall k :: 0 <= k < |r.value.users| ==>
            0 <= skip + k < |pending| && r.value.users[k] == pending[skip + k].swipedBy)
      && r.value.total == |pending|
      && r.value.totalPages == TotalPages(|pending|, limit)
      && r.value.currentPage == page
    ensures r.Ok? && UniquePairs(docs) ==>
      forall x :: x in r.value.users ==> Swiped(Ledger(docs), x, me, Right) && (me, x) !in Ledger(docs)
  {
    var ids := Swipers(PendingLikes(docs, me));
    assert UniquePairs(docs) ==> forall x :: x in ids ==>
      Swiped(Ledger(docs), x, me, Right) && (me, x) !in Ledger(docs)
    by {
      if UniquePairs(docs) {
        LikedByIsPending(docs, me);
      }
    }
    ListPage(ids, page, limit)
  }

  /** getLikedBy: a page of the users waiting for the caller's answer. */
  function GetLikedBy(users: seq<User>, docs: seq<Swipe>, verify: Verifier, header: Option<string>,
                      pageParam: Option<int>, limitParam: Option<int>): (r: Result<ListReply>)
    ensures var auth := Authorize(header, verify, users);
      auth.Err? ==> r == Err(auth.error)
    ensures var auth := Authorize(header, verify, users);
      auth.Ok? ==>
        (r.Ok? <==> Skip(PageNumber(pageParam), PageSize(limitParam)) >= 0) &&
        (r.Err? ==> r.error == ServerError)
    ensures var auth := Authorize(header, verify, users);
      r.Ok? ==>
        && auth.Ok?
        && var pending := PendingLikes(docs, auth.value.user.id);
           var skip := Skip(PageNumber(pageParam), PageSize(limitParam));
           && |r.value.users| == Min(Abs(PageSize(limitParam)), Max(0, |pending| - skip))
           && (forall k :: 0 <= k < |r.value.users| ==>
                 0 <= skip + k < |pending| && r.value.users[k] == pending[skip + k].swipedBy)
           && r.value.total == |pending|
           && r.value.totalPages == TotalPages(|pending|, PageSize(limitParam))
           && r.value.currentPage == PageNumber(pageParam)
    ensures var auth := Authorize(header, verify, users);
      r.Ok? && UniquePairs(docs) ==>
        && auth.Ok?
        && forall x :: x in r.value.users ==>
             Swiped(Ledger(docs), x, auth.value.user.id, Right) && (auth.value.user.id, x) !in Ledger(docs)
  {
    match Authorize(header, verify, users)
    case Err(e) => Err(e)
    case Ok(session) => LikedByList(docs, session.user.id, PageNumber(pageParam), PageSize(limitParam))
  }

  /** The reply of getMatches for the authorized caller `me`: a page of the
      swipees of `MutualLikes`, each of them matched with `me`. */
  function MatchesList(docs: seq<Swipe>, me: UserId, page: int, limit: int): (r: Result<ListReply>)
    requires limit != 0
    ensures r.Ok? <==> Skip(page, limit) >= 0
    ensures r.Err? ==> r.error == ServerError
    ensures r.Ok? ==>
      && var mutual, skip := MutualLikes(docs, me), Skip(page, limit);
      && |r.value.users| == Min(Abs(limit), Max(0, |mutual| - skip))
      && (forall k :: 0 <= k < |r.value.users| ==>
            0 <= skip + k < |mutual| && r.value.users[k] == mutual[skip + k].swipedUser)
      && r.value.total == |mutual|
      && r.value.totalPages == TotalPages(|mutual|, limit)
      && r.value.currentPage == page
    ensures r.Ok? && UniquePairs(docs) ==>
      forall x :: x in r.value.users ==> IsMatch(Ledger(docs), me, x)
  {
    var ids := Swipees(MutualLikes(docs, me));
    assert UniquePairs(docs) ==> forall x :: x in ids ==> IsMatch(Ledger(docs), me, x) by {
      if UniquePairs(docs) {
        MatchesAreMutual(docs, me);
      }
    }
    ListPage(ids, page, limit)
  }

  /** getMatches: a page of the users the caller is matched with. */
  function GetMatches(users: seq<User>, docs: seq<Swipe>, verify: Verifier, header: Option<string>,
                      pageParam: Option<int>, limitParam: Option<int>): (r: Result<ListReply>)
    ensures var auth := Authorize(header, verify, users);
      auth.Err? ==> r == Err(auth.error)
    ensures var auth := Authorize(header, verify, users);
      auth.Ok? ==>
        (r.Ok? <==> Skip(PageNumber(pageParam), PageSize(limitParam)) >= 0) &&
        (r.Err? ==> r.error == ServerError)
    ensures var auth := Authorize(header, verify, users);
      r.Ok? ==>
        && auth.Ok?
        && var mutual := MutualLikes(docs, auth.value.user.id);
           var skip := Skip(PageNumber(pageParam), PageSize(limitParam));
           && |r.value.users| == Min(Abs(PageSize(limitParam)), Max(0, |mutual| - skip))
           && (forall k :: 0 <= k < |r.value.users| ==>
                 0 <= skip + k < |mutual| && r.value.users[k] == mutual[skip + k].swipedUser)
           && r.value.total == |mutual|
           && r.value.totalPages == TotalPages(|mutual|, PageSize(limitParam))
           && r.value.currentPage == PageNumber(pageParam)
    ensures var auth := Authorize(header, verify, users);
      r.Ok? && UniquePairs(docs) ==>
        && auth.Ok?
        && forall x :: x in r.value.users ==> IsMatch(Ledger(docs), auth.value.user.id, x)
  {
    match Authorize(header, verify, users)
    case Err(e) => Err(e)
    case Ok(session) => MatchesList(docs, session.user.id, PageNumber(pageParam), PageSize(limitParam))
  }

  // ---------------------------------------------------------------------
  // respondToLike

  /** `action === "accept" ? "right" : "left"`, after the action was checked
      to be "accept" or "reject". */
  function ParseAction(action: string): (d: Option<Direction>)
    ensures d.Some? <==> action == "accept" || action == "reject"
    ensures d == Some(Right) <==> action == "accept"
  {
    if action == "accept" then Some(Right)
    else if action == "reject" then Some(Left)
    else None
  }

  /** respondToLike: validate the action first, then authorize, then upsert
      the caller's swipe on the liker and return the stored document. */
  method RespondToLike(store: SwipeCollection, users: seq<User>, verify: Verifier,
                       header: Option<string>, userId: UserId, action: string)
    returns (r: Result<Swipe>)
    requires store.Valid()
    modifies store
    ensures store.Valid()
    ensures ParseAction(action).None? ==> r == Err(BadRequest) && store.docs == old(store.docs)
    ensures var auth := Authorize(header, verify, users);
      ParseAction(action).Some? && auth.Err? ==> r == Err(auth.error) && store.docs == old(store.docs)
    ensures var auth := Authorize(header, verify, users);
      ParseAction(action).Some? && auth.Ok? ==>
        && r.Ok?
        && var me, d := auth.value.user.id, ParseAction(action).value;
           && Ledger(store.docs) == old(Ledger(store.docs))[(me, userId) := d]
           && |Entries(store.docs, (me, userId))| == 1
           && r.value in store.docs && Key(r.value) == (me, userId) && r.value.direction == d
  {
    var d := ParseAction(action);
    if d.None? {
      return Err(BadRequest);
    }
    var auth := Authorize(header, verify, users);
    if auth.Err? {
      return Err(auth.error);
    }
    var stored := store.UpsertSwipe(auth.value.user.id, userId, d.value);
    r := Ok(stored);
  }
}
