/**
 * The Facebook poller's de-duplication step: the fetched posts (newest
 * first) are reversed in place, and every post whose ID the page entry has
 * not recorded yet is recorded and announced; the entry is saved only when
 * something was recorded. Also the list of recorded posts built when a page
 * is added.
 */
module Facebook {
  datatype Post = Post(id: string, message: string, createdAt: string, pictureUrl: string, url: string)

  /** What the database keeps of a post. */
  datatype PostedPost = PostedPost(id: string, createdAt: string)

  datatype PageEntry = PageEntry(id: string, serverID: string, channelID: string, username: string,
                                 postedPosts: seq<PostedPost>)

  function AsPosted(p: Post): PostedPost {
    PostedPost(p.id, p.createdAt)
  }

  function Reversed<T>(s: seq<T>): seq<T> {
    if s == [] then [] else Reversed(s[1..]) + [s[0]]
  }

  lemma {:induction false} ReversedAt<T>(s: seq<T>, k: int)
    requires 0 <= k < |s|
    ensures |Reversed(s)| == |s| && Reversed(s)[k] == s[|s| - 1 - k]
  {
    if k < |s| - 1 {
      ReversedAt(s[1..], k);
    } else {
      ReversedLength(s[1..]);
    }
  }

  lemma {:induction false} ReversedLength<T>(s: seq<T>)
    ensures |Reversed(s)| == |s|
  {
    if s != [] {
      ReversedLength(s[1..]);
    }
  }

  /** Reversing twice restores the original order. */
  lemma ReversedTwice<T>(s: seq<T>)
    ensures Reversed(Reversed(s)) == s
  {
    ReversedLength(s);
    ReversedLength(Reversed(s));
    forall k | 0 <= k < |s|
      ensures Reversed(Reversed(s))[k] == s[k]
    {
      ReversedAt(Reversed(s), k);
      ReversedAt(s, |s| - 1 - k);
    }
  }

  /** The slice-reversal loop: swap i and n-1-i for i from n/2-1 down to 0. */
  method ReversePosts(posts: array<Post>)
    modifies posts
    ensures posts[..] == Reversed(old(posts[..]))
  {
    var n := posts.Length;
    var i := n / 2 - 1;
    while i >= 0
      invariant -1 <= i < n / 2
      invariant forall k :: 0 <= k < n ==>
        posts[k] == (if i < k < n - 1 - i then old(posts[n - 1 - k]) else old(posts[k]))
      decreases i + 1
    {
      var opp := n - 1 - i;
      posts[i], posts[opp] := posts[opp], posts[i];
      i := i - 1;
    }
    ghost var was := old(posts[..]);
    ReversedLength(was);
    forall k | 0 <= k < n
      ensures posts[..][k] == Reversed(was)[k]
    {
      ReversedAt(was, k);
    }
  }

  predicate AlreadyPosted(posted: seq<PostedPost>, id: string) {
    exists j :: 0 <= j < |posted| && posted[j].id == id
  }

  /**
   * The recorded posts after the check: each fetched post, in order, is
   * appended unless a recorded post (one appended earlier in the same pass
   * included) has its ID.
   */
  function AppendUnposted(posted: seq<PostedPost>, posts: seq<Post>): seq<PostedPost>
    decreases |posts|
  {
    if posts == [] then posted
    else
      var next := if AlreadyPosted(posted, posts[0].id) then posted else posted + [AsPosted(posts[0])];
      AppendUnposted(next, posts[1..])
  }

  /** The posts a check announces: the fold of AppendUnposted, keeping the posts it appends. */
  function Unposted(posted: seq<PostedPost>, posts: seq<Post>): seq<Post>
    decreases |posts|
  {
    if posts == [] then []
    else if AlreadyPosted(posted, posts[0].id) then Unposted(posted, posts[1..])
    else [posts[0]] + Unposted(posted + [AsPosted(posts[0])], posts[1..])
  }

  function AllAsPosted(s: seq<Post>): (r: seq<PostedPost>)
    ensures |r| == |s| && forall k :: 0 <= k < |s| ==> r[k] == AsPosted(s[k])
  {
    seq(|s|, k requires 0 <= k < |s| => AsPosted(s[k]))
  }

  /** Some fetched post carries the ID. */
  predicate Fetched(posts: seq<Post>, id: string) {
    exists j :: 0 <= j < |posts| && posts[j].id == id
  }

  /**
   * The reference filter: a fetched post is announced exactly when its ID is
   * neither recorded nor carried by an earlier fetched post; the announced
   * posts keep the fetched order.
   */
  function KeepUnseen(posted: seq<PostedPost>, posts: seq<Post>): seq<Post>
    decreases |posts|
  {
    if posts == [] then []
    else
      var init := posts[..|posts| - 1];
      var last := posts[|posts| - 1];
      KeepUnseen(posted, init)
      + (if AlreadyPosted(posted, last.id) || Fetched(init, last.id) then [] else [last])
  }

  /** The recorded posts afterwards are the old ones followed by the announced ones, as records. */
  lemma {:induction false} AppendUnpostedIsAnnounced(posted: seq<PostedPost>, posts: seq<Post>)
    ensures AppendUnposted(posted, posts) == posted + AllAsPosted(Unposted(posted, posts))
    decreases |posts|
  {
    if posts != [] {
      var p := posts[0];
      if AlreadyPosted(posted, p.id) {
        AppendUnpostedIsAnnounced(posted, posts[1..]);
      } else {
        var next := posted + [AsPosted(p)];
        AppendUnpostedIsAnnounced(next, posts[1..]);
        var rest := Unposted(next, posts[1..]);
        assert AllAsPosted([p] + rest) == [AsPosted(p)] + AllAsPosted(rest);
      }
    }
  }

  /** An ID is recorded after the check exactly when it was recorded before or some fetched post carries it. */
  lemma AlreadyPostedAfter(posted: seq<PostedPost>, posts: seq<Post>, id: string)
    ensures AlreadyPosted(AppendUnposted(posted, posts), id) <==> AlreadyPosted(posted, id) || Fetched(posts, id)
  {
    var r := AppendUnposted(posted, posts);
    AppendUnpostedExtends(posted, posts);
    if AlreadyPosted(posted, id) {
      AlreadyPostedKept(posted, posts, id);
    } else if Fetched(posts, id) {
      AppendUnpostedCovers(posted, posts);
      var j :| 0 <= j < |posts| && posts[j].id == id;
    }
    if AlreadyPosted(r, id) {
      var k :| 0 <= k < |r| && r[k].id == id;
      if k < |posted| {
        assert r[..|posted|][k] == posted[k];
      } else {
        AppendUnpostedFromFetched(posted, posts);
        var j :| 0 <= j < |posts| && r[k] == AsPosted(posts[j]);
      }
    }
  }

  /** Checking one more fetched post announces it exactly when its ID is not recorded by then. */
  lemma {:induction false} UnpostedSnoc(posted: seq<PostedPost>, posts: seq<Post>, p: Post)
    ensures Unposted(posted, posts + [p])
      == Unposted(posted, posts) + (if AlreadyPosted(AppendUnposted(posted, posts), p.id) then [] else [p])
    decreases |posts|
  {
    if posts == [] {
      assert posts + [p] == [p];
    } else {
      var next := if AlreadyPosted(posted, posts[0].id) then posted else posted + [AsPosted(posts[0])];
      assert (posts + [p])[0] == posts[0];
      assert (posts + [p])[1..] == posts[1..] + [p];
      UnpostedSnoc(next, posts[1..], p);
    }
  }

  /** The check announces exactly the posts the reference filter keeps, in the same order. */
  lemma {:induction false} UnpostedIsKeepUnseen(posted: seq<PostedPost>, posts: seq<Post>)
    ensures Unposted(posted, posts) == KeepUnseen(posted, posts)
    decreases |posts|
  {
    if posts != [] {
      var init := posts[..|posts| - 1];
      var last := posts[|posts| - 1];
      assert posts == init + [last];
      UnpostedIsKeepUnseen(posted, init);
      UnpostedSnoc(posted, init, last);
      AlreadyPostedAfter(posted, init, last.id);
    }
  }

  /**
   * No announced post has a recorded ID, and no two announced posts share an
   * ID, whatever was recorded before: a post fetched twice is announced once.
   */
  lemma {:induction false} UnpostedIsNewAndDistinct(posted: seq<PostedPost>, posts: seq<Post>)
    ensures forall k :: 0 <= k < |Unposted(posted, posts)| ==> !AlreadyPosted(posted, Unposted(posted, posts)[k].id)
    ensures forall k, l :: 0 <= k < l < |Unposted(posted, posts)| ==>
      Unposted(posted, posts)[k].id != Unposted(posted, posts)[l].id
    decreases |posts|
  {
    if posts != [] {
      var p := posts[0];
      if AlreadyPosted(posted, p.id) {
        UnpostedIsNewAndDistinct(posted, posts[1..]);
      } else {
        var next := posted + [AsPosted(p)];
        UnpostedIsNewAndDistinct(next, posts[1..]);
        var rest := Unposted(next, posts[1..]);
        var u := Unposted(posted, posts);
        assert u == [p] + rest;
        forall k | 0 <= k < |rest|
          ensures !AlreadyPosted(posted, rest[k].id) && rest[k].id != p.id
        {
          NotPostedShrinks(posted, AsPosted(p), rest[k].id);
          assert next[|posted|].id == p.id;
        }
        forall k | 0 <= k < |u| ensures !AlreadyPosted(posted, u[k].id) {
          if k > 0 {
            assert u[k] == rest[k - 1];
          }
        }
        forall k, l | 0 <= k < l < |u| ensures u[k].id != u[l].id {
          assert u[l] == rest[l - 1];
          if k > 0 {
            assert u[k] == rest[k - 1];
          }
        }
      }
    }
  }

  lemma NotPostedShrinks(posted: seq<PostedPost>, q: PostedPost, id: string)
    requires !AlreadyPosted(posted + [q], id)
    ensures !AlreadyPosted(posted, id)
  {
    forall j | 0 <= j < |posted| ensures posted[j].id != id {
      assert (posted + [q])[j] == posted[j];
    }
  }

  /** The records a check appends carry distinct IDs, none of them recorded before. */
  lemma AppendedRecordsAreDistinct(posted: seq<PostedPost>, posts: seq<Post>)
    ensures |AppendUnposted(posted, posts)| >= |posted|
    ensures var added := AppendUnposted(posted, posts)[|posted|..];
      DistinctIDs(added) && forall k :: 0 <= k < |added| ==> !AlreadyPosted(posted, added[k].id)
  {
    AppendUnpostedIsAnnounced(posted, posts);
    UnpostedIsNewAndDistinct(posted, posts);
    var added := AppendUnposted(posted, posts)[|posted|..];
    assert added == AllAsPosted(Unposted(posted, posts));
  }

  /** The inner scan of the check: does a recorded post carry the ID? */
  method ScanPosted(posted: seq<PostedPost>, id: string) returns (found: bool)
    ensures found <==> AlreadyPosted(posted, id)
  {
    found := false;
    for j := 0 to |posted|
      invariant found <==> exists k :: 0 <= k < j && posted[k].id == id
    {
      if posted[j].id == id {
        found := true;
      }
    }
  }

  /** `updated` is `posted` followed by the records of the announced posts, in order. */
  predicate RecordsAnnounced(posted: seq<PostedPost>, updated: seq<PostedPost>, announced: seq<Post>) {
    |updated| == |posted| + |announced|
    && updated[..|posted|] == posted
    && forall k :: 0 <= k < |announced| ==> updated[|posted| + k] == AsPosted(announced[k])
  }

  /**
   * The check loop over the fetched posts: `updated` is the recorded list
   * afterwards, `announced` the posts handed to the channel, `changes` the
   * flag that decides whether the entry is saved.
   */
  method AppendNewPosts(posted: seq<PostedPost>, posts: array<Post>)
    returns (updated: seq<PostedPost>, announced: seq<Post>, changes: bool)
    ensures updated == AppendUnposted(posted, posts[..])
    ensures announced == Unposted(posted, posts[..])
    ensures RecordsAnnounced(posted, updated, announced)
    ensures changes <==> |announced| > 0
  {
    updated, announced, changes := posted, [], false;
    for i := 0 to posts.Length
      invariant AppendUnposted(updated, posts[i..]) == AppendUnposted(posted, posts[..])
      invariant announced + Unposted(updated, posts[i..]) == Unposted(posted, posts[..])
      invariant RecordsAnnounced(posted, updated, announced)
      invariant changes <==> |announced| > 0
    {
      var post := posts[i];
      var postAlreadyPosted := ScanPosted(updated, post.id);
      assert posts[i..][0] == post && posts[i..][1..] == posts[i + 1..];
      if !postAlreadyPosted {
        assert Unposted(updated, posts[i..]) == [post] + Unposted(updated + [AsPosted(post)], posts[i + 1..]);
        assert announced + [post] + Unposted(updated + [AsPosted(post)], posts[i + 1..])
          == announced + Unposted(updated, posts[i..]);
        updated := updated + [AsPosted(post)];
        announced := announced + [post];
        changes := true;
      }
    }
    assert posts[..] == posts[0..];
  }

  /** One poll of one page: reverse the fetched posts, then record and announce the new ones. */
  method CheckPage(entry: PageEntry, posts: array<Post>) returns (updated: PageEntry, announced: seq<Post>, save: bool)
    modifies posts
    ensures posts[..] == Reversed(old(posts[..]))
    ensures updated == entry.(postedPosts := AppendUnposted(entry.postedPosts, Reversed(old(posts[..]))))
    ensures announced == KeepUnseen(entry.postedPosts, posts[..])
    ensures RecordsAnnounced(entry.postedPosts, updated.postedPosts, announced)
    ensures save <==> |announced| > 0
  {
    ReversePosts(posts);
    var postedPosts;
    postedPosts, announced, save := AppendNewPosts(entry.postedPosts, posts);
    UnpostedIsKeepUnseen(entry.postedPosts, posts[..]);
    updated := entry.(postedPosts := postedPosts);
  }

  /** The check is append-only: recorded posts keep their place and value. */
  lemma {:induction false} AppendUnpostedExtends(posted: seq<PostedPost>, posts: seq<Post>)
    ensures |AppendUnposted(posted, posts)| >= |posted|
    ensures AppendUnposted(posted, posts)[..|posted|] == posted
    decreases |posts|
  {
    if posts != [] {
      var next := if AlreadyPosted(posted, posts[0].id) then posted else posted + [AsPosted(posts[0])];
      AppendUnpostedExtends(next, posts[1..]);
      assert AppendUnposted(posted, posts)[..|next|][..|posted|] == AppendUnposted(posted, posts)[..|posted|];
    }
  }

  /** Only fetched posts are appended. */
  lemma {:induction false} AppendUnpostedFromFetched(posted: seq<PostedPost>, posts: seq<Post>)
    ensures forall k :: |posted| <= k < |AppendUnposted(posted, posts)| ==>
      exists j :: 0 <= j < |posts| && AppendUnposted(posted, posts)[k] == AsPosted(posts[j])
    decreases |posts|
  {
    if posts != [] {
      var next := if AlreadyPosted(posted, posts[0].id) then posted else posted + [AsPosted(posts[0])];
      AppendUnpostedFromFetched(next, posts[1..]);
      AppendUnpostedExtends(next, posts[1..]);
      var r := AppendUnposted(posted, posts);
      assert r == AppendUnposted(next, posts[1..]);
      forall k | |posted| <= k < |r|
        ensures exists j :: 0 <= j < |posts| && r[k] == AsPosted(posts[j])
      {
        if k < |next| {
          assert r[k] == r[..|next|][k] == next[k] == AsPosted(posts[0]);
          assert 0 <= 0 < |posts| && r[k] == AsPosted(posts[0]);
        } else {
          var j :| 0 <= j < |posts[1..]| && r[k] == AsPosted(posts[1..][j]);
          assert posts[1..][j] == posts[j + 1];
          assert 0 <= j + 1 < |posts| && r[k] == AsPosted(posts[j + 1]);
        }
      }
    } else {
      assert AppendUnposted(posted, posts) == posted;
    }
  }

  lemma AlreadyPostedKept(posted: seq<PostedPost>, posts: seq<Post>, id: string)
    requires AlreadyPosted(posted, id)
    ensures AlreadyPosted(AppendUnposted(posted, posts), id)
  {
    AppendUnpostedExtends(posted, posts);
    var j :| 0 <= j < |posted| && posted[j].id == id;
    assert AppendUnposted(posted, posts)[..|posted|][j] == posted[j];
  }

  /** Afterwards every fetched post's ID is recorded. */
  lemma {:induction false} AppendUnpostedCovers(posted: seq<PostedPost>, posts: seq<Post>)
    ensures forall i :: 0 <= i < |posts| ==> AlreadyPosted(AppendUnposted(posted, posts), posts[i].id)
    decreases |posts|
  {
    if posts != [] {
      var next := if AlreadyPosted(posted, posts[0].id) then posted else posted + [AsPosted(posts[0])];
      assert AlreadyPosted(next, posts[0].id) by {
        if !AlreadyPosted(posted, posts[0].id) {
          assert next[|posted|].id == posts[0].id;
        }
      }
      AlreadyPostedKept(next, posts[1..], posts[0].id);
      AppendUnpostedCovers(next, posts[1..]);
      forall i | 1 <= i < |posts|
        ensures AlreadyPosted(AppendUnposted(posted, posts), posts[i].id)
      {
        assert posts[1..][i - 1] == posts[i];
      }
    }
  }

  /** When every fetched ID is recorded already, nothing is appended (and the entry is not saved). */
  lemma {:induction false} AppendUnpostedNoop(posted: seq<PostedPost>, posts: seq<Post>)
    requires forall i :: 0 <= i < |posts| ==> AlreadyPosted(posted, posts[i].id)
    ensures AppendUnposted(posted, posts) == posted
    decreases |posts|
  {
    if posts != [] {
      forall i | 0 <= i < |posts[1..]| ensures AlreadyPosted(posted, posts[1..][i].id) {
        assert posts[1..][i] == posts[i + 1];
      }
      AppendUnpostedNoop(posted, posts[1..]);
    }
  }

  /** Running the check again on the same fetched posts appends nothing. */
  lemma AppendUnpostedIdempotent(posted: seq<PostedPost>, posts: seq<Post>)
    ensures AppendUnposted(AppendUnposted(posted, posts), posts) == AppendUnposted(posted, posts)
  {
    AppendUnpostedCovers(posted, posts);
    AppendUnpostedNoop(AppendUnposted(posted, posts), posts);
  }

  predicate DistinctIDs(posted: seq<PostedPost>) {
    forall i, j :: 0 <= i < j < |posted| ==> posted[i].id != posted[j].id
  }

  /** An ID fetched twice in one batch is recorded (and announced) once: distinct IDs stay distinct. */
  lemma {:induction false} AppendUnpostedKeepsDistinct(posted: seq<PostedPost>, posts: seq<Post>)
    requires DistinctIDs(posted)
    ensures DistinctIDs(AppendUnposted(posted, posts))
    decreases |posts|
  {
    if posts != [] {
      var next := if AlreadyPosted(posted, posts[0].id) then posted else posted + [AsPosted(posts[0])];
      assert DistinctIDs(next);
      AppendUnpostedKeepsDistinct(next, posts[1..]);
    }
  }

  /** The `add` branch: the recorded posts of a new entry, one per fetched post, in fetched order. */
  method PostedFromFetched(posts: seq<Post>) returns (dbPosts: seq<PostedPost>)
    ensures |dbPosts| == |posts|
    ensures forall i :: 0 <= i < |posts| ==> dbPosts[i] == PostedPost(posts[i].id, posts[i].createdAt)
  {
    dbPosts := [];
    for i := 0 to |posts|
      invariant |dbPosts| == i
      invariant forall k :: 0 <= k < i ==> dbPosts[k] == PostedPost(posts[k].id, posts[k].createdAt)
    {
      var facebookPostEntry := PostedPost(posts[i].id, posts[i].createdAt);
      dbPosts := dbPosts + [facebookPostEntry];
    }
  }

  /** A page just added with the posts fetched then has nothing new at the next poll of the same posts. */
  lemma {:induction false} AddedPageHasNothingNew(posts: seq<Post>, dbPosts: seq<PostedPost>)
    requires |dbPosts| == |posts|
    requires forall i :: 0 <= i < |posts| ==> dbPosts[i] == PostedPost(posts[i].id, posts[i].createdAt)
    ensures AppendUnposted(dbPosts, Reversed(posts)) == dbPosts
  {
    var fetched := Reversed(posts);
    ReversedLength(posts);
    forall i | 0 <= i < |fetched|
      ensures AlreadyPosted(dbPosts, fetched[i].id)
    {
      ReversedAt(posts, i);
      var j := |posts| - 1 - i;
      assert 0 <= j < |dbPosts| && dbPosts[j].id == fetched[i].id;
    }
    AppendUnpostedNoop(dbPosts, fetched);
  }
}
