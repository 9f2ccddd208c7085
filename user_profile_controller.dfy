/** The profile screen's controller: the fields it updates in place and the
    callbacks that update them. Each method is one callback taken as one
    atomic step, and its contract ties the new state to the matching function
    of `ProfileFeed`. */
module UserProfile {
  import opened ProfileFeed

  class UserProfileController {
    var user: Option<User>
    var posts: seq<Post>
    var isGridView: bool
    var isFinishedPaging: bool

    /** The controller's fields as a feed state. */
    function State(): FeedState
      reads this
    {
      FeedState(user, posts, isFinishedPaging, isGridView)
    }

    constructor ()
      ensures State() == Initial()
    {
      user := None;
      posts := [];
      isGridView := true;
      isFinishedPaging := false;
    }

    /** The user-fetch callback stores the fetched user. */
    method OnUserFetched(fetched: User)
      modifies this`user
      ensures user == Some(fetched)
      ensures State() == Step(old(State()), UserFetched(fetched))
    {
      user := Some(fetched);
    }

    /** Starting a page fetch: nothing without a user id, otherwise the query
      to issue. Nothing changes until its answer arrives. */
    method PaginatePosts() returns (query: Option<PageQuery>)
      ensures query == NextPageQuery(State())
    {
      if user.None? {
        return None;
      }
      var endingAt := None;
      if |posts| > 0 {
        endingAt := Some(posts[|posts| - 1].creationDate);
      }
      query := Some(PageQuery(user.value.uid, endingAt, PageSize));
    }

    /** The page query's answer: the flag is set on a short answer before
      the user is checked; the posts of the trimmed, reversed batch are
      appended one by one. */
    method OnPageLoaded(children: seq<Child>)
      modifies this`posts, this`isFinishedPaging
      ensures old(posts) <= posts
      ensures old(isFinishedPaging) ==> isFinishedPaging
      ensures State() == PageMerge(old(State()), children)
    {
      var cast := AsSnapshots(children);
      if cast.None? {
        return;
      }
      var allObjects := Reverse(cast.value);
      if |allObjects| < PageSize {
        isFinishedPaging := true;
      }
      if |posts| > 0 && |allObjects| > 0 {
        allObjects := allObjects[1..];
      }
      if user.None? {
        return;
      }
      assert allObjects == Trimmed(Reverse(cast.value), |old(posts)| > 0);
      AppendPosts(allObjects, user.value);
    }

    /** The `forEach` of the page callback: each snapshot whose value is a
      dictionary is appended as a post with the snapshot's key as id. */
    method AppendPosts(batch: seq<Snapshot>, owner: User)
      modifies this`posts
      ensures posts == old(posts) + PagePosts(batch, owner)
    {
      ghost var before := posts;
      var i := 0;
      while i < |batch|
        invariant 0 <= i <= |batch|
        invariant posts == before + PagePosts(batch[..i], owner)
      {
        var snapshot := batch[i];
        ghost var prefix := PagePosts(batch[..i], owner);
        match snapshot.value {
          case None =>
          case Some(record) =>
            posts := posts + [Post(Some(snapshot.key), owner, record.creationDate)];
        }
        assert posts == before + prefix + PageItem(snapshot, owner);
        AppendedOne(batch, i, owner);
        i := i + 1;
      }
      assert batch[..i] == batch;
    }

    /** The live `childAdded` callback: a dictionary record becomes a post
      inserted at index 0, once the user is known. */
    method OnChildAdded(snapshot: Snapshot)
      modifies this`posts
      ensures snapshot.value.Some? && user.Some? ==>
        posts == [Post(None, user.value, snapshot.value.value.creationDate)] + old(posts)
      ensures snapshot.value.None? || user.None? ==> posts == old(posts)
      ensures State() == LiveInsert(old(State()), snapshot)
    {
      if snapshot.value.None? {
        return;
      }
      if user.None? {
        return;
      }
      var post := Post(None, user.value, snapshot.value.value.creationDate);
      posts := [post] + posts;
    }

    /** The number of items the collection view shows. */
    method NumberOfItems() returns (count: int)
      ensures count == |posts|
    {
      count := |posts|;
    }

    /** Rendering the item at `index`: whether a page fetch is started (and
      the query it issues), the kind of cell and the post it shows. */
    method CellForItem(index: int) returns (requested: bool, query: Option<PageQuery>, kind: CellKind, post: Post)
      requires 0 <= index < |posts|
      ensures requested == WantsPage(State(), index)
      ensures requested ==> query == NextPageQuery(State())
      ensures !requested ==> query == None
      ensures kind == CellKindOf(State())
      ensures post == posts[index]
    {
      requested := WantsPage(State(), index);
      query := None;
      if requested {
        query := PaginatePosts();
      }
      kind := CellKindOf(State());
      post := posts[index];
    }

    /** The header's grid button. */
    method DidChangeToGridView()
      modifies this`isGridView
      ensures isGridView
      ensures State() == Step(old(State()), GridViewChosen)
    {
      isGridView := true;
    }

    /** The header's list button. */
    method DidChangeToListView()
      modifies this`isGridView
      ensures !isGridView
      ensures State() == Step(old(State()), ListViewChosen)
    {
      isGridView := false;
    }
  }
}
