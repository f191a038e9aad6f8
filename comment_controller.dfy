/**
 * The comment controller: the listing of a video's comments, a declarative pipeline of
 * selection, counting and ordering, and the three handlers that add, edit and delete a
 * comment after a sequence of checks that send an error response WITHOUT returning.
 *
 * Each handler is a method on the comment store proved to have exactly the effect and the
 * answer of a step function on store values; the lemmas state what those steps do,
 * including the store effects that still happen after an error response was sent.
 */
module CommentController {
  import opened Wrappers
  import opened JsString
  import opened Http
  import opened Mongo
  import opened UserModel
  import opened Seqs

  // ---------------------------------------------------------------------------
  // Records

  /** A stored comment. `content` is whatever the request carried. */
  datatype Comment = Comment(id: ObjectId, content: Option<string>, video: ObjectId, owner: ObjectId, createdAt: int)

  /** A stored like; `comment` is absent for likes of videos and tweets. */
  datatype Like = Like(comment: Option<ObjectId>, likedBy: ObjectId)

  /** The projected `owner`: `{username, fullName, avatar: {url}}`. */
  datatype OwnerView = OwnerView(username: string, fullName: string, avatarUrl: string)

  /** One listed comment after `$addFields` and `$project`. */
  datatype CommentView = CommentView(
    id: ObjectId,
    content: Option<string>,
    createdAt: int,
    likesCount: nat,
    owner: Option<OwnerView>,
    isLiked: bool)

  /** The `data` of the comment responses. The page carries every listed comment and the
      parsed `page` and `limit` options (`None` is `NaN`). */
  datatype CommentPayload =
    | CommentPage(docs: seq<CommentView>, page: Option<int>, limit: Option<int>)
    | CommentDoc(comment: Comment)
    | DeletedId(commentId: ObjectId)

  /** The collections the handlers read and write, and the next `_id` to hand out. */
  datatype Board = Board(videos: set<ObjectId>, comments: seq<Comment>, likes: seq<Like>, nextId: ObjectId) {
    /** Comment ids are distinct and below `nextId`. */
    ghost predicate Valid() {
      && (forall i :: 0 <= i < |comments| ==> comments[i].id < nextId)
      && (forall i, j :: 0 <= i < j < |comments| ==> comments[i].id != comments[j].id)
    }
  }

  datatype CommentOutcome = CommentOutcome(board: Board, ex: Exchange<CommentPayload>)

  const VideoNotFoundMessage := "Video not found"
  const ContentRequiredMessage := "Content is required"
  const ContentMissingMessage := "content is required"
  const CommentNotFoundMessage := "Comment not found"
  const NotEditorMessage := "only comment owner can edit their comment"
  const NotDeleterMessage := "only comment owner can delete their comment"
  const FetchedMessage := "Comments fetched successfully"
  const AddedMessage := "Comment added successfully"
  const EditedMessage := "Comment edited successfully"
  const DeletedMessage := "Comment deleted successfully"

  // ---------------------------------------------------------------------------
  // Queries and updates on the comments collection

  /** `Comment.findById(id)`: the first comment with that `_id`. */
  function FindComment(cs: seq<Comment>, id: ObjectId): (r: Option<Comment>)
    ensures r.Some? ==> r.value in cs && r.value.id == id
    ensures r.None? <==> forall i :: 0 <= i < |cs| ==> cs[i].id != id
  {
    if cs == [] then None
    else if cs[0].id == id then Some(cs[0])
    else
      var r := FindComment(cs[1..], id);
      assert forall i :: 1 <= i < |cs| ==> cs[i] == cs[1..][i - 1];
      r
  }

  /** `$set: {content}`; an `undefined` value is dropped from the update. */
  function SetContent(c: Comment, content: Option<string>): (r: Comment)
    ensures r.id == c.id && r.video == c.video && r.owner == c.owner && r.createdAt == c.createdAt
    ensures r.content == if content.Some? then content else c.content
  {
    if content.Some? then c.(content := content) else c
  }

  /** `Comment.findByIdAndUpdate(id, {$set: {content}})`. */
  function UpdateContent(cs: seq<Comment>, id: ObjectId, content: Option<string>): (r: seq<Comment>)
    ensures |r| == |cs|
    ensures forall i :: 0 <= i < |cs| ==> r[i].id == cs[i].id
  {
    seq(|cs|, i requires 0 <= i < |cs| => if cs[i].id == id then SetContent(cs[i], content) else cs[i])
  }

  /** The update reaches the comment with that id and no other. */
  lemma {:induction false} FindAfterUpdate(cs: seq<Comment>, id: ObjectId, content: Option<string>, x: ObjectId)
    ensures FindComment(UpdateContent(cs, id, content), x) ==
            if x == id && FindComment(cs, x).Some? then Some(SetContent(FindComment(cs, x).value, content))
            else FindComment(cs, x)
  {
    if cs != [] {
      var r := UpdateContent(cs, id, content);
      assert r[1..] == UpdateContent(cs[1..], id, content);
      FindAfterUpdate(cs[1..], id, content, x);
    }
  }

  function NotId(id: ObjectId): Comment -> bool {
    (c: Comment) => c.id != id
  }

  /** Removing every comment with id `id` leaves the lookups of every other id as they were. */
  lemma {:induction false} FindAfterDelete(cs: seq<Comment>, id: ObjectId, x: ObjectId)
    ensures FindComment(Filter(cs, NotId(id)), x) == if x == id then None else FindComment(cs, x)
  {
    if cs != [] {
      FindAfterDelete(cs[1..], id, x);
      if cs[0].id != id {
        assert Filter(cs, NotId(id)) == [cs[0]] + Filter(cs[1..], NotId(id));
        assert (Filter(cs, NotId(id)))[1..] == Filter(cs[1..], NotId(id));
      } else {
        assert Filter(cs, NotId(id)) == Filter(cs[1..], NotId(id));
      }
    }
  }

  /** The likes `Like.deleteMany({comment: id, likedBy: user})` keeps. */
  function NotLikeOf(id: ObjectId, user: ObjectId): Like -> bool {
    (l: Like) => !(l.comment == Some(id) && l.likedBy == user)
  }

  // ---------------------------------------------------------------------------
  // getVideoComments

  function OnVideo(video: ObjectId): Comment -> bool {
    (c: Comment) => c.video == video
  }

  /** The `$lookup` of likes whose `comment` is the comment's `_id`. */
  function OnComment(id: ObjectId): Like -> bool {
    (l: Like) => l.comment == Some(id)
  }

  /** `$in: [req.user?._id, "$likes.likedBy"]`. */
  predicate AnyLikedBy(likes: seq<Like>, caller: ObjectId) {
    exists l :: l in likes && l.likedBy == caller
  }

  /** The owner `$lookup` with `$first`, projected. */
  function OwnerOf(users: seq<User>, owner: ObjectId): (r: Option<OwnerView>)
    ensures r.Some? <==> FindById(users, owner).Some?
  {
    match FindById(users, owner)
    case None => None
    case Some(u) => Some(OwnerView(u.username, u.fullName, u.avatar.url))
  }

  /** The `$lookup`s, `$addFields` and `$project` of the pipeline, for one comment. */
  function Annotate(users: seq<User>, likes: seq<Like>, caller: ObjectId, c: Comment): CommentView {
    var ofComment := Filter(likes, OnComment(c.id));
    CommentView(c.id, c.content, c.createdAt, |ofComment|, OwnerOf(users, c.owner), AnyLikedBy(ofComment, caller))
  }

  function AnnotateAll(users: seq<User>, likes: seq<Like>, caller: ObjectId, cs: seq<Comment>): (r: seq<CommentView>)
    ensures |r| == |cs|
    ensures forall i :: 0 <= i < |cs| ==> r[i] == Annotate(users, likes, caller, cs[i])
  {
    seq(|cs|, i requires 0 <= i < |cs| => Annotate(users, likes, caller, cs[i]))
  }

  function CreatedAt(v: CommentView): int {
    v.createdAt
  }

  /** The aggregation pipeline: `$match` on the video, annotate, `$sort: {createdAt: -1}`. */
  function ListComments(users: seq<User>, b: Board, video: ObjectId, caller: ObjectId): seq<CommentView> {
    SortByKeyDescending(AnnotateAll(users, b.likes, caller, Filter(b.comments, OnVideo(video))), CreatedAt)
  }

  /** `getVideoComments`, with the `page` and `limit` query strings. When the video is
      missing the 404 is sent and the handler carries on until the 200 throws. */
  function GetVideoComments(users: seq<User>, b: Board, videoId: ObjectId, page: Option<string>,
                            limit: Option<string>, caller: PublicUser): Exchange<CommentPayload>
  {
    var data := CommentPage(ListComments(users, b, videoId, caller.id),
                            ParseInt(page.GetOr("1")), ParseInt(limit.GetOr("10")));
    var reply := Response(200, [], ApiResponse(200, data, FetchedMessage));
    if videoId !in b.videos then Exchange(Some(ErrorReply(404, VideoNotFoundMessage)), Some(HeadersAlreadySent))
    else Replied(reply)
  }

  /** A missing video: the client gets the 404 and the later 200 throws. */
  lemma ListingOfMissingVideo(users: seq<User>, b: Board, videoId: ObjectId, page: Option<string>,
                              limit: Option<string>, caller: PublicUser)
    requires videoId !in b.videos
    ensures GetVideoComments(users, b, videoId, page, limit, caller).sent == Some(ErrorReply(404, VideoNotFoundMessage))
    ensures GetVideoComments(users, b, videoId, page, limit, caller).escaped == Some(HeadersAlreadySent)
    ensures GetVideoComments(users, b, videoId, page, limit, caller).DeliveredStatus() == Some(404)
  {
  }

  /** An existing video: a 200 with the listing, and page 1 of 10 when the query names none. */
  lemma ListingDefaults(users: seq<User>, b: Board, videoId: ObjectId, caller: PublicUser)
    requires videoId in b.videos
    ensures GetVideoComments(users, b, videoId, None, None, caller) ==
            Replied(Response(200, [], ApiResponse(200, CommentPage(ListComments(users, b, videoId, caller.id), Some(1), Some(10)), FetchedMessage)))
  {
    assert Decimal(1) == "1";
    assert Decimal(10) == "10" by {
      assert Decimal(10) == Decimal(1) + [DigitChar(0)];
    }
    ParseIntDecimal(1);
    ParseIntDecimal(10);
  }

  /** The listing holds the annotation of every stored comment of the video and nothing
      else. */
  lemma ListingIsTheVideosComments(users: seq<User>, b: Board, video: ObjectId, caller: ObjectId, v: CommentView)
    ensures v in ListComments(users, b, video, caller) <==>
            exists c :: c in b.comments && c.video == video && v == Annotate(users, b.likes, caller, c)
  {
    var selected := Filter(b.comments, OnVideo(video));
    var annotated := AnnotateAll(users, b.likes, caller, selected);
    assert multiset(ListComments(users, b, video, caller)) == multiset(annotated);
    if v in ListComments(users, b, video, caller) {
      assert v in multiset(ListComments(users, b, video, caller));
      assert v in annotated;
      var i :| 0 <= i < |annotated| && annotated[i] == v;
      FilterMembers(b.comments, OnVideo(video), selected[i]);
    }
    if exists c :: c in b.comments && c.video == video && v == Annotate(users, b.likes, caller, c) {
      var c :| c in b.comments && c.video == video && v == Annotate(users, b.likes, caller, c);
      FilterMembers(b.comments, OnVideo(video), c);
      var i :| 0 <= i < |selected| && selected[i] == c;
      assert annotated[i] == v;
      assert v in multiset(annotated);
    }
  }

  /** `likesCount` is the number of stored likes of that comment. */
  lemma LikesCountCountsLikes(users: seq<User>, likes: seq<Like>, caller: ObjectId, c: Comment)
    ensures Annotate(users, likes, caller, c).likesCount == |set i | 0 <= i < |likes| && likes[i].comment == Some(c.id)|
  {
    FilterLengthIsCount(likes, OnComment(c.id));
    assert Positions(likes, OnComment(c.id)) == set i | 0 <= i < |likes| && likes[i].comment == Some(c.id);
  }

  /** `isLiked` holds exactly when the caller has liked that comment. */
  lemma IsLikedIff(users: seq<User>, likes: seq<Like>, caller: ObjectId, c: Comment)
    ensures Annotate(users, likes, caller, c).isLiked <==>
            exists i :: 0 <= i < |likes| && likes[i].comment == Some(c.id) && likes[i].likedBy == caller
  {
    var ofComment := Filter(likes, OnComment(c.id));
    if Annotate(users, likes, caller, c).isLiked {
      var l :| l in ofComment && l.likedBy == caller;
      FilterMembers(likes, OnComment(c.id), l);
      var i :| 0 <= i < |likes| && likes[i] == l;
      assert likes[i].comment == Some(c.id);
    }
    if exists i :: 0 <= i < |likes| && likes[i].comment == Some(c.id) && likes[i].likedBy == caller {
      var i :| 0 <= i < |likes| && likes[i].comment == Some(c.id) && likes[i].likedBy == caller;
      FilterMembers(likes, OnComment(c.id), likes[i]);
      assert likes[i] in ofComment;
    }
  }

  /** The listing is newest first. */
  lemma ListingNewestFirst(users: seq<User>, b: Board, video: ObjectId, caller: ObjectId, i: int, j: int)
    requires 0 <= i <= j < |ListComments(users, b, video, caller)|
    ensures ListComments(users, b, video, caller)[i].createdAt >= ListComments(users, b, video, caller)[j].createdAt
  {
    NonIncreasingPairwise(ListComments(users, b, video, caller), CreatedAt, i, j);
  }

  // ---------------------------------------------------------------------------
  // addComment, updateComment, deleteComment as steps on store values

  /** `addComment`: a falsy `content` sends a 400 and a missing video a 404, neither
      returning; the comment is created unless the 404 was a second send. */
  function AddStep(b: Board, videoId: ObjectId, content: Option<string>, user: PublicUser, now: int): CommentOutcome {
    var first: Option<Response<CommentPayload>> := if !Truthy(content) then Some(ErrorReply(400, ContentRequiredMessage)) else None;
    if videoId !in b.videos && first.Some? then CommentOutcome(b, Exchange(first, Some(HeadersAlreadySent)))
    else
      var sent := if videoId !in b.videos then Some(ErrorReply(404, VideoNotFoundMessage)) else first;
      var c := Comment(b.nextId, content, videoId, user.id, now);
      var b' := b.(comments := b.comments + [c], nextId := b.nextId + 1);
      if sent.Some? then CommentOutcome(b', Exchange(sent, Some(HeadersAlreadySent)))
      else CommentOutcome(b', Replied(Response(201, [], ApiResponse(201, CommentDoc(c), AddedMessage))))
  }

  /** `updateComment`: the content, existence and ownership checks each send without
      returning; the update runs whenever no check's send was a second one. */
  function UpdateStep(b: Board, commentId: ObjectId, content: Option<string>, user: PublicUser): CommentOutcome {
    var s1: Option<Response<CommentPayload>> := if !Truthy(content) then Some(ErrorReply(400, ContentMissingMessage)) else None;
    var found := FindComment(b.comments, commentId);
    if found.None? && s1.Some? then CommentOutcome(b, Exchange(s1, Some(HeadersAlreadySent)))
    else
      var s2 := if found.None? then Some(ErrorReply(404, CommentNotFoundMessage)) else s1;
      // `comment?.owner.toString()` is `undefined` for a missing comment
      var mismatch := found.None? || IdText(found.value.owner) != IdText(user.id);
      if mismatch && s2.Some? then CommentOutcome(b, Exchange(s2, Some(HeadersAlreadySent)))
      else
        var s3 := if mismatch then Some(ErrorReply(400, NotEditorMessage)) else s2;
        var updated := SetContent(found.value, content);
        var b' := b.(comments := UpdateContent(b.comments, commentId, content));
        if s3.Some? then CommentOutcome(b', Exchange(s3, Some(HeadersAlreadySent)))
        else CommentOutcome(b', Replied(Response(200, [], ApiResponse(200, CommentDoc(updated), EditedMessage))))
  }

  /** `deleteComment`: the existence and ownership checks send without returning; the
      comment and the caller's likes of it are deleted whenever the ownership send was the
      first one. */
  function DeleteStep(b: Board, commentId: ObjectId, user: PublicUser): CommentOutcome {
    var found := FindComment(b.comments, commentId);
    var s1: Option<Response<CommentPayload>> := if found.None? then Some(ErrorReply(404, CommentNotFoundMessage)) else None;
    var mismatch := found.None? || IdText(found.value.owner) != IdText(user.id);
    if mismatch && s1.Some? then CommentOutcome(b, Exchange(s1, Some(HeadersAlreadySent)))
    else
      var s2 := if mismatch then Some(ErrorReply(400, NotDeleterMessage)) else s1;
      var b' := b.(comments := Filter(b.comments, NotId(commentId)), likes := Filter(b.likes, NotLikeOf(commentId, user.id)));
      if s2.Some? then CommentOutcome(b', Exchange(s2, Some(HeadersAlreadySent)))
      else CommentOutcome(b', Replied(Response(200, [], ApiResponse(200, DeletedId(commentId), DeletedMessage))))
  }

  // ---------------------------------------------------------------------------
  // What the steps do

  /** A comment on an existing video with content is created with a fresh id and answered
      with 201. */
  lemma AddCreates(b: Board, videoId: ObjectId, content: Option<string>, user: PublicUser, now: int)
    requires b.Valid() && videoId in b.videos && Truthy(content)
    ensures var o := AddStep(b, videoId, content, user, now);
            var c := Comment(b.nextId, content, videoId, user.id, now);
            && o.board.comments == b.comments + [c]
            && FindComment(b.comments, c.id).None?
            && o.board.likes == b.likes
            && o.ex == Replied(Response(201, [], ApiResponse(201, CommentDoc(c), AddedMessage)))
  {
  }

  /** Without content the 400 is answered, yet the comment is still created on an existing
      video and the 201 throws. */
  lemma AddWithoutContentStillCreates(b: Board, videoId: ObjectId, content: Option<string>, user: PublicUser, now: int)
    requires videoId in b.videos && !Truthy(content)
    ensures var o := AddStep(b, videoId, content, user, now);
            && o.board.comments == b.comments + [Comment(b.nextId, content, videoId, user.id, now)]
            && o.ex == Exchange(Some(ErrorReply(400, ContentRequiredMessage)), Some(HeadersAlreadySent))
  {
  }

  /** On a missing video a comment with content is still created after the 404; one
      without content is not. */
  lemma AddToMissingVideo(b: Board, videoId: ObjectId, content: Option<string>, user: PublicUser, now: int)
    requires videoId !in b.videos
    ensures var o := AddStep(b, videoId, content, user, now);
            && (o.board.comments != b.comments <==> Truthy(content))
            && o.ex.escaped == Some(HeadersAlreadySent)
            && o.ex.sent == Some(if Truthy(content) then ErrorReply(404, VideoNotFoundMessage) else ErrorReply(400, ContentRequiredMessage))
  {
    var o := AddStep(b, videoId, content, user, now);
    if Truthy(content) {
      assert |o.board.comments| == |b.comments| + 1;
    }
  }

  /** Adding keeps the store valid. */
  lemma AddPreservesValid(b: Board, videoId: ObjectId, content: Option<string>, user: PublicUser, now: int)
    requires b.Valid()
    ensures AddStep(b, videoId, content, user, now).board.Valid()
  {
  }

  /** A missing comment is neither edited nor deleted, and both get the 404 (or the earlier
      400) with a failure escaping. */
  lemma MissingCommentUntouched(b: Board, commentId: ObjectId, content: Option<string>, user: PublicUser)
    requires FindComment(b.comments, commentId).None?
    ensures UpdateStep(b, commentId, content, user).board == b
    ensures UpdateStep(b, commentId, content, user).ex ==
            Exchange(Some(if Truthy(content) then ErrorReply(404, CommentNotFoundMessage) else ErrorReply(400, ContentMissingMessage)),
                     Some(HeadersAlreadySent))
    ensures DeleteStep(b, commentId, user) ==
            CommentOutcome(b, Exchange(Some(ErrorReply(404, CommentNotFoundMessage)), Some(HeadersAlreadySent)))
  {
  }

  /** The owner's edit with content replaces that comment's content and nothing else. */
  lemma OwnerEdits(b: Board, commentId: ObjectId, content: Option<string>, user: PublicUser)
    requires Truthy(content)
    requires FindComment(b.comments, commentId).Some? && FindComment(b.comments, commentId).value.owner == user.id
    ensures var o := UpdateStep(b, commentId, content, user);
            var c := FindComment(b.comments, commentId).value;
            && o.ex == Replied(Response(200, [], ApiResponse(200, CommentDoc(c.(content := content)), EditedMessage)))
            && (forall x :: FindComment(o.board.comments, x) == if x == commentId then Some(c.(content := content)) else FindComment(b.comments, x))
            && o.board.likes == b.likes && o.board.videos == b.videos
  {
    forall x ensures FindComment(UpdateContent(b.comments, commentId, content), x) ==
                     if x == commentId then Some(FindComment(b.comments, commentId).value.(content := content)) else FindComment(b.comments, x) {
      FindAfterUpdate(b.comments, commentId, content, x);
    }
  }

  /** A non-owner's edit is answered with the 400, and the comment is edited all the same. */
  lemma NonOwnerStillEdits(b: Board, commentId: ObjectId, content: Option<string>, user: PublicUser)
    requires Truthy(content)
    requires FindComment(b.comments, commentId).Some? && FindComment(b.comments, commentId).value.owner != user.id
    ensures var o := UpdateStep(b, commentId, content, user);
            && o.ex == Exchange(Some(ErrorReply(400, NotEditorMessage)), Some(HeadersAlreadySent))
            && FindComment(o.board.comments, commentId) == Some(FindComment(b.comments, commentId).value.(content := content))
  {
    IdTextInjective(FindComment(b.comments, commentId).value.owner, user.id);
    FindAfterUpdate(b.comments, commentId, content, commentId);
  }

  /** An edit never changes another comment, a like, or the next id, and keeps the store
      valid. */
  lemma UpdateChangesOnlyThatComment(b: Board, commentId: ObjectId, content: Option<string>, user: PublicUser, x: ObjectId)
    requires b.Valid() && x != commentId
    ensures var o := UpdateStep(b, commentId, content, user);
            && FindComment(o.board.comments, x) == FindComment(b.comments, x)
            && o.board.likes == b.likes && o.board.nextId == b.nextId
            && o.board.Valid()
  {
    var o := UpdateStep(b, commentId, content, user);
    var b' := b.(comments := UpdateContent(b.comments, commentId, content));
    assert o.board == b || o.board == b';
    assert b'.Valid() by {
      assert forall i :: 0 <= i < |b.comments| ==> b'.comments[i].id == b.comments[i].id;
    }
    FindAfterUpdate(b.comments, commentId, content, x);
  }

  /** A delete that gets past the ownership check removes the comment and exactly the
      caller's likes of it; every other like stays, as often as it was stored. */
  lemma DeleteRemovesCommentAndCallersLikes(b: Board, commentId: ObjectId, user: PublicUser, l: Like, x: ObjectId)
    requires FindComment(b.comments, commentId).Some?
    ensures var o := DeleteStep(b, commentId, user);
            && FindComment(o.board.comments, commentId).None?
            && FindComment(o.board.comments, x) == (if x == commentId then None else FindComment(b.comments, x))
            && (l in o.board.likes <==> l in b.likes && !(l.comment == Some(commentId) && l.likedBy == user.id))
            && multiset(o.board.likes)[l] == if l.comment == Some(commentId) && l.likedBy == user.id then 0 else multiset(b.likes)[l]
  {
    FindAfterDelete(b.comments, commentId, commentId);
    FindAfterDelete(b.comments, commentId, x);
    FilterMembers(b.likes, NotLikeOf(commentId, user.id), l);
    FilterCounts(b.likes, NotLikeOf(commentId, user.id), l);
  }

  /** A non-owner's delete is answered with the 400, and the comment is deleted all the same. */
  lemma NonOwnerStillDeletes(b: Board, commentId: ObjectId, user: PublicUser)
    requires FindComment(b.comments, commentId).Some? && FindComment(b.comments, commentId).value.owner != user.id
    ensures var o := DeleteStep(b, commentId, user);
            && o.ex == Exchange(Some(ErrorReply(400, NotDeleterMessage)), Some(HeadersAlreadySent))
            && FindComment(o.board.comments, commentId).None?
  {
    IdTextInjective(FindComment(b.comments, commentId).value.owner, user.id);
    FindAfterDelete(b.comments, commentId, commentId);
  }

  /** The owner's delete is answered with 200 and the comment id. */
  lemma OwnerDeletes(b: Board, commentId: ObjectId, user: PublicUser)
    requires FindComment(b.comments, commentId).Some? && FindComment(b.comments, commentId).value.owner == user.id
    ensures DeleteStep(b, commentId, user).ex == Replied(Response(200, [], ApiResponse(200, DeletedId(commentId), DeletedMessage)))
  {
  }

  /** Ids stay distinct when comments are removed. */
  lemma {:induction false} FilterKeepsDistinctIds(cs: seq<Comment>, p: Comment -> bool)
    requires forall i, j :: 0 <= i < j < |cs| ==> cs[i].id != cs[j].id
    ensures forall i, j :: 0 <= i < j < |Filter(cs, p)| ==> Filter(cs, p)[i].id != Filter(cs, p)[j].id
  {
    if cs != [] {
      var rest := Filter(cs[1..], p);
      assert forall i, j :: 0 <= i < j < |cs[1..]| ==> cs[1..][i].id != cs[1..][j].id by {
        forall i, j | 0 <= i < j < |cs[1..]| ensures cs[1..][i].id != cs[1..][j].id {
          assert cs[1..][i] == cs[i + 1] && cs[1..][j] == cs[j + 1];
        }
      }
      FilterKeepsDistinctIds(cs[1..], p);
      if p(cs[0]) {
        forall k | 0 <= k < |rest| ensures rest[k].id != cs[0].id {
          FilterMembers(cs[1..], p, rest[k]);
          var m :| 0 <= m < |cs[1..]| && cs[1..][m] == rest[k];
          assert cs[m + 1] == rest[k];
        }
        var r := Filter(cs, p);
        assert r == [cs[0]] + rest;
        forall i, j | 0 <= i < j < |r| ensures r[i].id != r[j].id {
          assert r[j] == rest[j - 1];
          if i > 0 {
            assert r[i] == rest[i - 1];
          }
        }
      }
    }
  }

  /** Deleting keeps the store valid. */
  lemma DeletePreservesValid(b: Board, commentId: ObjectId, user: PublicUser)
    requires b.Valid()
    ensures DeleteStep(b, commentId, user).board.Valid()
  {
    var kept := Filter(b.comments, NotId(commentId));
    FilterKeepsDistinctIds(b.comments, NotId(commentId));
    forall i | 0 <= i < |kept| ensures kept[i].id < b.nextId {
      FilterMembers(b.comments, NotId(commentId), kept[i]);
    }
  }

  // ---------------------------------------------------------------------------
  // The handlers on the store

  /** The comments, likes and videos collections. */
  class CommentStore {
    var videos: set<ObjectId>
    var comments: seq<Comment>
    var likes: seq<Like>
    var nextId: ObjectId

    constructor (b: Board)
      requires b.Valid()
      ensures State() == b
    {
      videos, comments, likes, nextId := b.videos, b.comments, b.likes, b.nextId;
    }

    function State(): Board
      reads this
    {
      Board(videos, comments, likes, nextId)
    }

    /** `addComment` for video `videoId` with body field `content`, by `req.user`, at `now`. */
    method AddComment(videoId: ObjectId, content: Option<string>, user: PublicUser, now: int, res: Res<CommentPayload>)
        returns (escaped: Option<Failure>)
      requires res.sent.None?
      modifies this, res
      ensures var o := AddStep(old(State()), videoId, content, user, now);
              State() == o.board && Exchange(res.sent, escaped) == o.ex
    {
      escaped := None;
      if !Truthy(content) {
        var _ := res.Send(ErrorReply(400, ContentRequiredMessage));
      }
      if videoId !in videos {
        var alreadySent := res.Send(ErrorReply(404, VideoNotFoundMessage));
        if alreadySent {
          return Some(HeadersAlreadySent);
        }
      }
      // `Comment.create` returns the document or throws, so `if (!comment)` never fires
      var comment := Comment(nextId, content, videoId, user.id, now);
      comments := comments + [comment];
      nextId := nextId + 1;
      var alreadySent := res.Send(Response(201, [], ApiResponse(201, CommentDoc(comment), AddedMessage)));
      if alreadySent {
        escaped := Some(HeadersAlreadySent);
      }
    }

    /** `updateComment` of comment `commentId` with body field `content`, by `req.user`. */
    method UpdateComment(commentId: ObjectId, content: Option<string>, user: PublicUser, res: Res<CommentPayload>)
        returns (escaped: Option<Failure>)
      requires res.sent.None?
      modifies this, res
      ensures var o := UpdateStep(old(State()), commentId, content, user);
              State() == o.board && Exchange(res.sent, escaped) == o.ex
    {
      escaped := None;
      if !Truthy(content) {
        var _ := res.Send(ErrorReply(400, ContentMissingMessage));
      }
      var comment := FindComment(comments, commentId);
      if comment.None? {
        var alreadySent := res.Send(ErrorReply(404, CommentNotFoundMessage));
        if alreadySent {
          return Some(HeadersAlreadySent);
        }
      }
      if comment.None? || IdText(comment.value.owner) != IdText(user.id) {
        var alreadySent := res.Send(ErrorReply(400, NotEditorMessage));
        if alreadySent {
          return Some(HeadersAlreadySent);
        }
      }
      // a missing comment has made one of the sends above throw
      var updatedComment := SetContent(comment.value, content);
      comments := UpdateContent(comments, commentId, content);
      var alreadySent := res.Send(Response(200, [], ApiResponse(200, CommentDoc(updatedComment), EditedMessage)));
      if alreadySent {
        escaped := Some(HeadersAlreadySent);
      }
    }

    /** `deleteComment` of comment `commentId` by `req.user`. */
    method DeleteComment(commentId: ObjectId, user: PublicUser, res: Res<CommentPayload>)
        returns (escaped: Option<Failure>)
      requires res.sent.None?
      modifies this, res
      ensures var o := DeleteStep(old(State()), commentId, user);
              State() == o.board && Exchange(res.sent, escaped) == o.ex
    {
      escaped := None;
      var comment := FindComment(comments, commentId);
      if comment.None? {
        var _ := res.Send(ErrorReply(404, CommentNotFoundMessage));
      }
      if comment.None? || IdText(comment.value.owner) != IdText(user.id) {
        var alreadySent := res.Send(ErrorReply(400, NotDeleterMessage));
        if alreadySent {
          return Some(HeadersAlreadySent);
        }
      }
      comments := Filter(comments, NotId(commentId));
      likes := Filter(likes, NotLikeOf(commentId, user.id));
      var alreadySent := res.Send(Response(200, [], ApiResponse(200, DeletedId(commentId), DeletedMessage)));
      if alreadySent {
        escaped := Some(HeadersAlreadySent);
      }
    }
  }
}
