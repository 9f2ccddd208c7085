/** The profile feed of a user-profile screen, as values.

    The screen keeps the user whose posts it shows, the posts loaded so far
    (meant to be newest first), a flag saying that paging is exhausted and a flag choosing
    grid or list cells. Four callbacks change that state: the user arriving,
    a page of children arriving from the database, one live `childAdded`
    record arriving, and the header switching between grid and list view.
    This module gives each of them as a function on `FeedState`, and proves
    what the screen relies on about them. */
module ProfileFeed {

  datatype Option<T> = None | Some(value: T)

  /** The number of children one page query asks for (`queryLimited(toLast:)`). */
  const PageSize: nat := 4

  datatype User = User(uid: string, username: string)

  /** The part of a post's dictionary that the feed logic reads. */
  datatype PostRecord = PostRecord(creationDate: int)

  /** One child snapshot of the database: its key, and its value when that
      value is a dictionary (`None` for a missing or non-dictionary value). */
  datatype Snapshot = Snapshot(key: string, value: Option<PostRecord>)

  /** One element of the answer's `children.allObjects`; the page callback
      casts the whole array to snapshots, and an element that is not one
      makes the cast fail. */
  datatype Child = Snap(snapshot: Snapshot) | Foreign

  /** A post as the screen holds it. `id` is set from the snapshot key by the
      page callback only. */
  datatype Post = Post(id: Option<string>, user: User, creationDate: int)

  datatype FeedState = FeedState(
    user: Option<User>,
    posts: seq<Post>,
    isFinishedPaging: bool,
    isGridView: bool)

  /** The page query: the user's posts ordered by `creationDate`, ending at
      `endingAt` inclusive when it is present, the last `limit` of them. */
  datatype PageQuery = PageQuery(uid: string, endingAt: Option<int>, limit: nat)

  datatype CellKind = PhotoCell | HomePostCell

  /** The callbacks that change the feed, each taken as one atomic step. */
  datatype Event =
    | UserFetched(fetched: User)
    | PageLoaded(children: seq<Child>)
    | ChildAdded(snapshot: Snapshot)
    | GridViewChosen
    | ListViewChosen

  /** The state of a freshly loaded screen: nothing loaded, no query
      possible until the user is known, paging open, grid view. */
  function Initial(): (r: FeedState)
    ensures r.user.None? && r.posts == []
    ensures !r.isFinishedPaging && r.isGridView
    ensures NextPageQuery(r) == None
  {
    FeedState(None, [], false, true)
  }

  // ---------------------------------------------------------------------
  // Sequences reversed

  function Reverse<T>(s: seq<T>): (r: seq<T>)
    ensures |r| == |s|
  {
    if |s| == 0 then [] else [s[|s| - 1]] + Reverse(s[..|s| - 1])
  }

  lemma {:induction false} ReverseIndex<T>(s: seq<T>, k: int)
    requires 0 <= k < |s|
    ensures Reverse(s)[k] == s[|s| - 1 - k]
  {
    if k > 0 {
      ReverseIndex(s[..|s| - 1], k - 1);
    }
  }

  lemma {:induction false} ReverseConcat<T>(a: seq<T>, b: seq<T>)
    ensures Reverse(a + b) == Reverse(b) + Reverse(a)
  {
    if |b| == 0 {
      assert a + b == a;
    } else {
      assert (a + b)[..|a + b| - 1] == a + b[..|b| - 1];
      ReverseConcat(a, b[..|b| - 1]);
    }
  }

  // ---------------------------------------------------------------------
  // The page callback

  /** The cast `as? [DataSnapshot]`: the snapshots, in order, when every
      child is one, and `None` otherwise. */
  function AsSnapshots(children: seq<Child>): (r: Option<seq<Snapshot>>)
    ensures r.Some? <==> forall i :: 0 <= i < |children| ==> children[i].Snap?
    ensures r.Some? ==> |r.value| == |children|
    ensures r.Some? ==> forall i :: 0 <= i < |children| ==> r.value[i] == children[i].snapshot
  {
    if |children| == 0 then Some([])
    else if children[0].Foreign? then None
    else
      match AsSnapshots(children[1..])
      case None => None
      case Some(rest) => Some([children[0].snapshot] + rest)
  }

  /** The post built from a snapshot whose value is a dictionary. */
  function PostOf(snapshot: Snapshot, user: User): Post
    requires snapshot.value.Some?
  {
    Post(Some(snapshot.key), user, snapshot.value.value.creationDate)
  }

  /** What one snapshot contributes in the `forEach`: nothing when its value
      is not a dictionary, else a post whose id is the snapshot's key. */
  function PageItem(snapshot: Snapshot, user: User): seq<Post>
  {
    match snapshot.value
    case None => []
    case Some(_) => [PostOf(snapshot, user)]
  }

  /** The posts the `forEach` appends for a batch, in batch order. */
  function PagePosts(batch: seq<Snapshot>, user: User): (r: seq<Post>)
    ensures |r| <= |batch|
  {
    if |batch| == 0 then [] else PageItem(batch[0], user) + PagePosts(batch[1..], user)
  }

  /** The batch with its first element removed, whatever it is, when the
      screen already held posts (`removeFirst()`, meant for the record at the
      query's inclusive bound). */
  function Trimmed(batch: seq<Snapshot>, hadPosts: bool): (r: seq<Snapshot>)
    ensures hadPosts && |batch| > 0 ==> [batch[0]] + r == batch
    ensures !(hadPosts && |batch| > 0) ==> r == batch
  {
    if hadPosts && |batch| > 0 then batch[1..] else batch
  }

  /** The page callback: cast, reverse, set the flag on a short answer, trim,
      then (only when the user is known) append the posts of the batch. */
  function PageMerge(s: FeedState, children: seq<Child>): (r: FeedState)
    ensures AsSnapshots(children).None? ==> r == s
    ensures r.user == s.user && r.isGridView == s.isGridView
    ensures s.isFinishedPaging ==> r.isFinishedPaging
  {
    match AsSnapshots(children)
    case None => s
    case Some(snapshots) =>
      var batch := Reverse(snapshots);
      var finished := if |batch| < PageSize then true else s.isFinishedPaging;
      var trimmed := Trimmed(batch, |s.posts| > 0);
      match s.user
      case None => s.(isFinishedPaging := finished)
      case Some(u) => s.(isFinishedPaging := finished, posts := s.posts + PagePosts(trimmed, u))
  }

  lemma {:induction false} PagePostsConcat(a: seq<Snapshot>, b: seq<Snapshot>, user: User)
    ensures PagePosts(a + b, user) == PagePosts(a, user) + PagePosts(b, user)
  {
    if |a| == 0 {
      assert a + b == b;
    } else {
      assert (a + b)[1..] == a[1..] + b;
      PagePostsConcat(a[1..], b, user);
    }
  }

  /** The posts of a batch's first `i + 1` snapshots extend those of its
      first `i` by what snapshot `i` contributes. */
  lemma AppendedOne(batch: seq<Snapshot>, i: nat, user: User)
    requires i < |batch|
    ensures PagePosts(batch[..i + 1], user) == PagePosts(batch[..i], user) + PageItem(batch[i], user)
  {
    assert batch[..i + 1] == batch[..i] + [batch[i]];
    PagePostsConcat(batch[..i], [batch[i]], user);
    assert PagePosts([batch[i]], user) == PageItem(batch[i], user);
  }

  /** Reversing the batch before or after building its posts gives the same
      posts. */
  lemma {:induction false} PagePostsReverse(batch: seq<Snapshot>, user: User)
    ensures PagePosts(Reverse(batch), user) == Reverse(PagePosts(batch, user))
  {
    if |batch| > 0 {
      var init, last := batch[..|batch| - 1], batch[|batch| - 1];
      assert batch == init + [last];
      assert Reverse(batch)[1..] == Reverse(init);
      assert PagePosts([last], user) == PageItem(last, user);
      PagePostsReverse(init, user);
      PagePostsConcat(init, [last], user);
      ReverseConcat(PagePosts(init, user), PageItem(last, user));
      assert Reverse(PageItem(last, user)) == PageItem(last, user);
    }
  }

  /** The snapshots whose value is a dictionary, in order. */
  function Dictionaries(batch: seq<Snapshot>): (r: seq<Snapshot>)
    ensures |r| <= |batch|
    ensures forall i :: 0 <= i < |r| ==> r[i].value.Some? && r[i] in batch
    ensures forall i :: 0 <= i < |batch| && batch[i].value.Some? ==> batch[i] in r
    ensures (forall i :: 0 <= i < |batch| ==> batch[i].value.Some?) ==> r == batch
  {
    if |batch| == 0 then []
    else if batch[0].value.Some? then [batch[0]] + Dictionaries(batch[1..])
    else Dictionaries(batch[1..])
  }

  /** Filtering distributes over concatenation: dictionary snapshots keep
      their relative order. */
  lemma {:induction false} DictionariesConcat(a: seq<Snapshot>, b: seq<Snapshot>)
    ensures Dictionaries(a + b) == Dictionaries(a) + Dictionaries(b)
  {
    if |a| == 0 {
      assert a + b == b;
    } else {
      assert (a + b)[1..] == a[1..] + b;
      DictionariesConcat(a[1..], b);
    }
  }

  /** The posts of a batch are exactly its dictionary snapshots, in order,
      each with the snapshot's key as id and the record's creation date. */
  lemma {:induction false} PagePostsAreDictionaries(batch: seq<Snapshot>, user: User)
    ensures |PagePosts(batch, user)| == |Dictionaries(batch)|
    ensures forall i :: 0 <= i < |Dictionaries(batch)| ==>
      PagePosts(batch, user)[i] == PostOf(Dictionaries(batch)[i], user)
  {
    if |batch| > 0 {
      var rest := batch[1..];
      PagePostsAreDictionaries(rest, user);
      if batch[0].value.Some? {
        var posts, dicts := PagePosts(batch, user), Dictionaries(batch);
        assert posts == [PostOf(batch[0], user)] + PagePosts(rest, user);
        assert dicts == [batch[0]] + Dictionaries(rest);
        forall i | 0 <= i < |dicts| ensures posts[i] == PostOf(dicts[i], user) {
          if i > 0 {
            assert posts[i] == PagePosts(rest, user)[i - 1];
            assert dicts[i] == Dictionaries(rest)[i - 1];
          }
        }
      } else {
        assert PagePosts(batch, user) == PagePosts(rest, user);
        assert Dictionaries(batch) == Dictionaries(rest);
      }
    }
  }

  /** What a page appends: the posts of the answer's snapshots, newest first,
      leaving out the answer's last snapshot, whatever it is, when the screen
      already held posts and the answer is non-empty. */
  lemma PageAppends(s: FeedState, children: seq<Child>, snapshots: seq<Snapshot>, u: User)
    requires AsSnapshots(children) == Some(snapshots)
    requires s.user == Some(u)
    ensures var kept := if |s.posts| > 0 && |snapshots| > 0 then |snapshots| - 1 else |snapshots|;
      PageMerge(s, children).posts == s.posts + Reverse(PagePosts(snapshots[..kept], u))
  {
    var kept := if |s.posts| > 0 && |snapshots| > 0 then |snapshots| - 1 else |snapshots|;
    var trimmed := Trimmed(Reverse(snapshots), |s.posts| > 0);
    assert PageMerge(s, children).posts == s.posts + PagePosts(trimmed, u);
    if kept == |snapshots| {
      assert snapshots[..kept] == snapshots;
    } else {
      assert Reverse(snapshots) == [snapshots[kept]] + Reverse(snapshots[..kept]);
    }
    assert trimmed == Reverse(snapshots[..kept]);
    PagePostsReverse(snapshots[..kept], u);
  }

  /** The exhaustion flag after a page: set exactly when it was set before or
      the untrimmed answer held fewer than `PageSize` children, whether or not
      the screen held posts and whether or not the user is known. */
  lemma PageFlag(s: FeedState, children: seq<Child>)
    ensures PageMerge(s, children).isFinishedPaging <==>
      s.isFinishedPaging || (AsSnapshots(children).Some? && |children| < PageSize)
  {
  }

  /** A page never changes or reorders the posts already held, nor the user
      or the view mode; without a known user it appends nothing. */
  lemma PagePrefix(s: FeedState, children: seq<Child>)
    ensures s.posts <= PageMerge(s, children).posts
    ensures PageMerge(s, children).user == s.user
    ensures PageMerge(s, children).isGridView == s.isGridView
    ensures s.user.None? ==> PageMerge(s, children).posts == s.posts
  {
  }

  /** A page appends at most as many posts as the answer has children; with
      the answer limited to `PageSize`, at most `PageSize` posts, and at most
      `PageSize - 1` when the screen already held posts. */
  lemma PageGrowth(s: FeedState, children: seq<Child>)
    ensures |PageMerge(s, children).posts| <= |s.posts| + |children|
    ensures |children| <= PageSize ==> |PageMerge(s, children).posts| <= |s.posts| + PageSize
    ensures |children| <= PageSize && |s.posts| > 0 ==>
      |PageMerge(s, children).posts| <= |s.posts| + PageSize - 1
  {
  }

  // ---------------------------------------------------------------------
  // Order of the posts across pages

  ghost predicate NewestFirst(posts: seq<Post>)
  {
    forall i, j :: 0 <= i < j < |posts| ==> posts[i].creationDate >= posts[j].creationDate
  }

  ghost predicate OldestFirst(posts: seq<Post>)
  {
    forall i, j :: 0 <= i < j < |posts| ==> posts[i].creationDate <= posts[j].creationDate
  }

  /** The database's answer is ordered by `creationDate`, ascending. */
  ghost predicate AscendingByDate(batch: seq<Snapshot>)
  {
    forall i, j :: 0 <= i < j < |batch| && batch[i].value.Some? && batch[j].value.Some? ==>
      batch[i].value.value.creationDate <= batch[j].value.value.creationDate
  }

  /** Every record of the answer lies at or before `bound`. */
  ghost predicate EndingAt(batch: seq<Snapshot>, bound: int)
  {
    forall i :: 0 <= i < |batch| && batch[i].value.Some? ==> batch[i].value.value.creationDate <= bound
  }

  /** Every record of the answer lies at or after `bound`. */
  ghost predicate StartingAt(batch: seq<Snapshot>, bound: int)
  {
    forall i :: 0 <= i < |batch| && batch[i].value.Some? ==> bound <= batch[i].value.value.creationDate
  }

  lemma {:induction false} PagePostsEndingAt(batch: seq<Snapshot>, user: User, bound: int)
    requires EndingAt(batch, bound)
    ensures forall i :: 0 <= i < |PagePosts(batch, user)| ==> PagePosts(batch, user)[i].creationDate <= bound
  {
    if |batch| > 0 {
      assert EndingAt(batch[1..], bound) by {
        forall i | 0 <= i < |batch[1..]| && batch[1..][i].value.Some?
          ensures batch[1..][i].value.value.creationDate <= bound
        {
          assert batch[1..][i] == batch[i + 1];
        }
      }
      PagePostsEndingAt(batch[1..], user, bound);
    }
  }

  lemma {:induction false} PagePostsStartingAt(batch: seq<Snapshot>, user: User, bound: int)
    requires StartingAt(batch, bound)
    ensures forall i :: 0 <= i < |PagePosts(batch, user)| ==> bound <= PagePosts(batch, user)[i].creationDate
  {
    if |batch| > 0 {
      assert StartingAt(batch[1..], bound) by {
        forall i | 0 <= i < |batch[1..]| && batch[1..][i].value.Some?
          ensures bound <= batch[1..][i].value.value.creationDate
        {
          assert batch[1..][i] == batch[i + 1];
        }
      }
      PagePostsStartingAt(batch[1..], user, bound);
    }
  }

  lemma {:induction false} PagePostsOldestFirst(batch: seq<Snapshot>, user: User)
    requires AscendingByDate(batch)
    ensures OldestFirst(PagePosts(batch, user))
  {
    if |batch| > 0 {
      var rest := batch[1..];
      assert AscendingByDate(rest) by {
        forall i, j | 0 <= i < j < |rest| && rest[i].value.Some? && rest[j].value.Some?
          ensures rest[i].value.value.creationDate <= rest[j].value.value.creationDate
        {
          assert rest[i] == batch[i + 1] && rest[j] == batch[j + 1];
        }
      }
      PagePostsOldestFirst(rest, user);
      if batch[0].value.Some? {
        var first := batch[0].value.value.creationDate;
        assert StartingAt(rest, first) by {
          forall i | 0 <= i < |rest| && rest[i].value.Some?
            ensures first <= rest[i].value.value.creationDate
          {
            assert rest[i] == batch[i + 1];
          }
        }
        PagePostsStartingAt(rest, user, first);
      }
    }
  }

  lemma ReverseNewestFirst(posts: seq<Post>)
    requires OldestFirst(posts)
    ensures NewestFirst(Reverse(posts))
  {
    forall i, j | 0 <= i < j < |posts|
      ensures Reverse(posts)[i].creationDate >= Reverse(posts)[j].creationDate
    {
      ReverseIndex(posts, i);
      ReverseIndex(posts, j);
    }
  }

  lemma ConcatNewestFirst(older: seq<Post>, added: seq<Post>)
    requires NewestFirst(older) && NewestFirst(added)
    requires |older| > 0 ==> forall k :: 0 <= k < |added| ==> added[k].creationDate <= older[|older| - 1].creationDate
    ensures NewestFirst(older + added)
  {
  }

  /** The posts of an ascending answer, reversed, are newest first and keep
      the answer's bound. */
  lemma AddedNewestFirst(kept: seq<Snapshot>, u: User, bound: Option<int>)
    requires AscendingByDate(kept)
    requires bound.Some? ==> EndingAt(kept, bound.value)
    ensures NewestFirst(Reverse(PagePosts(kept, u)))
    ensures bound.Some? ==> forall k :: 0 <= k < |PagePosts(kept, u)| ==>
      Reverse(PagePosts(kept, u))[k].creationDate <= bound.value
  {
    var posts := PagePosts(kept, u);
    PagePostsOldestFirst(kept, u);
    ReverseNewestFirst(posts);
    if bound.Some? {
      PagePostsEndingAt(kept, u, bound.value);
      forall k | 0 <= k < |posts| ensures Reverse(posts)[k].creationDate <= bound.value {
        ReverseIndex(posts, k);
      }
    }
  }

  lemma PrefixOfAnswer(snapshots: seq<Snapshot>, n: nat, bound: Option<int>)
    requires n <= |snapshots|
    requires AscendingByDate(snapshots)
    requires bound.Some? ==> EndingAt(snapshots, bound.value)
    ensures AscendingByDate(snapshots[..n])
    ensures bound.Some? ==> EndingAt(snapshots[..n], bound.value)
  {
  }

  /** A page keeps the posts newest first, provided the database answers in
      ascending `creationDate` order and, when the screen held posts, only
      with records at or before the last post's date (the query's bound). */
  lemma PageKeepsNewestFirst(s: FeedState, children: seq<Child>, snapshots: seq<Snapshot>)
    requires AsSnapshots(children) == Some(snapshots)
    requires NewestFirst(s.posts)
    requires AscendingByDate(snapshots)
    requires |s.posts| > 0 ==> EndingAt(snapshots, s.posts[|s.posts| - 1].creationDate)
    ensures NewestFirst(PageMerge(s, children).posts)
  {
    match s.user
    case None =>
      PagePrefix(s, children);
    case Some(u) =>
      var n := if |s.posts| > 0 && |snapshots| > 0 then |snapshots| - 1 else |snapshots|;
      var bound := if |s.posts| > 0 then Some(s.posts[|s.posts| - 1].creationDate) else None;
      PrefixOfAnswer(snapshots, n, bound);
      var kept := snapshots[..n];
      AddedNewestFirst(kept, u, bound);
      var added := Reverse(PagePosts(kept, u));
      ConcatNewestFirst(s.posts, added);
      PageAppends(s, children, snapshots, u);
  }

  // ---------------------------------------------------------------------
  // The live subscription

  /** The `childAdded` callback: a snapshot whose value is a dictionary
      becomes a post (without an id) inserted at index 0, when the user is
      known. */
  function LiveInsert(s: FeedState, snapshot: Snapshot): (r: FeedState)
    ensures r.user == s.user && r.isFinishedPaging == s.isFinishedPaging && r.isGridView == s.isGridView
    ensures |s.posts| <= |r.posts| <= |s.posts| + 1
    ensures r.posts[|r.posts| - |s.posts|..] == s.posts
  {
    match snapshot.value
    case None => s
    case Some(record) =>
      match s.user
      case None => s
      case Some(u) => s.(posts := [Post(None, u, record.creationDate)] + s.posts)
  }

  /** A live add inserts at index 0 and shifts every earlier post up by one,
      exactly when the value is a dictionary and the user is known; it never
      touches the flags. */
  lemma LiveInsertShifts(s: FeedState, snapshot: Snapshot)
    ensures var r := LiveInsert(s, snapshot);
      && r.user == s.user
      && r.isFinishedPaging == s.isFinishedPaging
      && r.isGridView == s.isGridView
      && (r.posts != s.posts <==> snapshot.value.Some? && s.user.Some?)
      && (snapshot.value.Some? && s.user.Some? ==>
            && |r.posts| == |s.posts| + 1
            && r.posts[0] == Post(None, s.user.value, snapshot.value.value.creationDate)
            && forall i :: 0 <= i < |s.posts| ==> r.posts[i + 1] == s.posts[i])
  {
  }

  // ---------------------------------------------------------------------
  // Reads made by the collection view

  /** The page query the screen issues: none without a user id, else bounded
      at the last post's `creationDate` when there are posts. */
  function NextPageQuery(s: FeedState): (q: Option<PageQuery>)
    ensures q.Some? <==> s.user.Some?
    ensures q.Some? ==> q.value.uid == s.user.value.uid && q.value.limit == PageSize
    ensures q.Some? ==> (q.value.endingAt.Some? <==> |s.posts| > 0)
    ensures q.Some? && |s.posts| > 0 ==> q.value.endingAt.value == s.posts[|s.posts| - 1].creationDate
  {
    match s.user
    case None => None
    case Some(u) =>
      var bound := if |s.posts| > 0 then Some(s.posts[|s.posts| - 1].creationDate) else None;
      Some(PageQuery(u.uid, bound, PageSize))
  }

  /** Rendering the item at `index` asks for a page: exactly when it is the
      last item and paging is still open. */
  predicate WantsPage(s: FeedState, index: int): (b: bool)
    ensures b ==> index == |s.posts| - 1
    ensures s.isFinishedPaging ==> !b
    ensures index == |s.posts| - 1 && !s.isFinishedPaging ==> b
  {
    index == |s.posts| - 1 && !s.isFinishedPaging
  }

  function CellKindOf(s: FeedState): (kind: CellKind)
    ensures kind == PhotoCell <==> s.isGridView
  {
    if s.isGridView then PhotoCell else HomePostCell
  }

  // ---------------------------------------------------------------------
  // Runs of callbacks

  function Step(s: FeedState, e: Event): FeedState
  {
    match e
    case UserFetched(u) => s.(user := Some(u))
    case PageLoaded(children) => PageMerge(s, children)
    case ChildAdded(snapshot) => LiveInsert(s, snapshot)
    case GridViewChosen => s.(isGridView := true)
    case ListViewChosen => s.(isGridView := false)
  }

  function Run(s: FeedState, events: seq<Event>): FeedState
    decreases events
  {
    if |events| == 0 then s else Run(Step(s, events[0]), events[1..])
  }

  /** Exhaustion is terminal: once set, the flag stays set whatever callbacks
      follow, and no rendered item ever asks for a page again. */
  lemma {:induction false} FinishedIsTerminal(s: FeedState, events: seq<Event>)
    requires s.isFinishedPaging
    ensures Run(s, events).isFinishedPaging
    ensures forall index :: !WantsPage(Run(s, events), index)
    decreases events
  {
    if |events| > 0 {
      FinishedIsTerminal(Step(s, events[0]), events[1..]);
    }
  }

  /** Without live adds, the posts held are only ever extended: every earlier
      post keeps its place. */
  lemma {:induction false} PagesOnlyExtend(s: FeedState, events: seq<Event>)
    requires forall i :: 0 <= i < |events| ==> !events[i].ChildAdded?
    ensures s.posts <= Run(s, events).posts
    decreases events
  {
    if |events| > 0 {
      PagePrefix(s, if events[0].PageLoaded? then events[0].children else []);
      PagesOnlyExtend(Step(s, events[0]), events[1..]);
    }
  }

  // ---------------------------------------------------------------------
  // Two pages, worked through

  function Record(key: string, date: int): Child
  {
    Snap(Snapshot(key, Some(PostRecord(date))))
  }

  /** The first answer: four records, oldest first, as the database sends them. */
  function FirstAnswer(): seq<Child>
  {
    [Record("p2", 2), Record("p3", 3), Record("p4", 4), Record("p5", 5)]
  }

  /** The second answer, bounded at date 2 inclusive: it re-returns "p2". */
  function SecondAnswer(): seq<Child>
  {
    [Record("p1", 1), Record("p2", 2)]
  }

  function Loaded(u: User, n: nat): seq<Post>
    requires n <= 4
  {
    [Post(Some("p5"), u, 5), Post(Some("p4"), u, 4), Post(Some("p3"), u, 3), Post(Some("p2"), u, 2)][..n]
  }

  lemma ReverseOfFour<T>(a: T, b: T, c: T, d: T)
    ensures Reverse([a, b, c, d]) == [d, c, b, a]
  {
    assert [a, b][..1] == [a];
    assert Reverse([a, b]) == [b, a];
    assert [a, b, c][..2] == [a, b];
    assert Reverse([a, b, c]) == [c, b, a];
    assert [a, b, c, d][..3] == [a, b, c];
  }

  lemma PagePostsOfRecords(u: User, snaps: seq<Snapshot>)
    requires forall i :: 0 <= i < |snaps| ==> snaps[i].value.Some?
    ensures PagePosts(snaps, u) ==
      seq(|snaps|, i requires 0 <= i < |snaps| => Post(Some(snaps[i].key), u, snaps[i].value.value.creationDate))
  {
  }

  lemma FirstPage(u: User)
    ensures PageMerge(FeedState(Some(u), [], false, true), FirstAnswer()) ==
      FeedState(Some(u), Loaded(u, 4), false, true)
  {
    var page := FirstAnswer();
    var snaps := [page[0].snapshot, page[1].snapshot, page[2].snapshot, page[3].snapshot];
    assert page[0].Snap? && page[1].Snap? && page[2].Snap? && page[3].Snap?;
    assert AsSnapshots(page).value == snaps;
    PageAppends(FeedState(Some(u), [], false, true), page, snaps, u);
    assert snaps[..4] == snaps;
    var p2, p3, p4, p5 := Post(Some("p2"), u, 2), Post(Some("p3"), u, 3), Post(Some("p4"), u, 4), Post(Some("p5"), u, 5);
    PagePostsOfRecords(u, snaps);
    assert PagePosts(snaps, u) == [p2, p3, p4, p5];
    ReverseOfFour(p2, p3, p4, p5);
  }

  lemma SecondPage(u: User)
    ensures PageMerge(FeedState(Some(u), Loaded(u, 4), false, true), SecondAnswer()) ==
      FeedState(Some(u), Loaded(u, 4) + [Post(Some("p1"), u, 1)], true, true)
  {
    var page := SecondAnswer();
    var snaps := [page[0].snapshot, page[1].snapshot];
    assert page[0].Snap? && page[1].Snap?;
    assert AsSnapshots(page).value == snaps;
    PageAppends(FeedState(Some(u), Loaded(u, 4), false, true), page, snaps, u);
    assert snaps[..1] == [page[0].snapshot];
    assert PagePosts(snaps[..1], u) == [Post(Some("p1"), u, 1)];
  }

  /** The first page, answered oldest first, lands newest first and leaves
      paging open; the second page re-returns the inclusive bound, which is
      dropped, and being short it ends paging. */
  lemma TwoPages(u: User)
    ensures var s1 := PageMerge(FeedState(Some(u), [], false, true), FirstAnswer());
      && s1.posts == [Post(Some("p5"), u, 5), Post(Some("p4"), u, 4), Post(Some("p3"), u, 3), Post(Some("p2"), u, 2)]
      && !s1.isFinishedPaging
      && PageMerge(s1, SecondAnswer()).posts == s1.posts + [Post(Some("p1"), u, 1)]
      && PageMerge(s1, SecondAnswer()).isFinishedPaging
  {
    FirstPage(u);
    SecondPage(u);
  }
}
