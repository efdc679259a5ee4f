/** The lab04 post model: validation of a post and of a create request, and
    the conversion of one into the other. */
module PostModel {
  import opened Wrappers
  import opened Text

  datatype Post = Post(
    id: int,
    userId: int,
    title: string,
    content: string,
    published: bool,
    createdAt: int,
    updatedAt: int)

  datatype CreatePostRequest = CreatePostRequest(userId: int, title: string, content: string, published: bool)

  datatype PostError =
    | TitleInvalid       // "title is not valid"
    | ContentRequired    // "content cannot be empty for published post"
    | UserIdInvalid      // "userId should be greater than 0"

  /** The three field checks, in the order both validators run them. */
  function CheckFields(userId: int, title: string, content: string, published: bool): (r: Outcome<PostError>)
    ensures r == Pass <==> ByteLen(title) >= 5 && (!published || content != "") && userId > 0
    ensures r == Fail(TitleInvalid) <==> ByteLen(title) < 5
    ensures r == Fail(ContentRequired) <==> ByteLen(title) >= 5 && published && content == ""
    ensures r == Fail(UserIdInvalid) <==> ByteLen(title) >= 5 && (!published || content != "") && userId <= 0
  {
    ByteLenEmpty(title);
    if title == "" || ByteLen(title) < 5 then Fail(TitleInvalid)
    else if published && content == "" then Fail(ContentRequired)
    else if userId <= 0 then Fail(UserIdInvalid)
    else Pass
  }

  /** `Post.Validate`. */
  function Validate(p: Post): (r: Outcome<PostError>)
    ensures r == Pass <==> ByteLen(p.title) >= 5 && (!p.published || p.content != "") && p.userId > 0
    ensures r == Fail(ContentRequired) ==> ByteLen(p.title) >= 5
    ensures r == Fail(UserIdInvalid) ==> ByteLen(p.title) >= 5 && (!p.published || p.content != "")
  {
    CheckFields(p.userId, p.title, p.content, p.published)
  }

  /** `CreatePostRequest.Validate`. */
  function ValidateRequest(req: CreatePostRequest): (r: Outcome<PostError>)
    ensures r == Pass <==> ByteLen(req.title) >= 5 && (!req.published || req.content != "") && req.userId > 0
  {
    CheckFields(req.userId, req.title, req.content, req.published)
  }

  /** `CreatePostRequest.ToPost`: copies the four request fields, sets the id
      to 0 and the two timestamps to two clock readings, `created` and
      `updated`. */
  function ToPost(req: CreatePostRequest, created: int, updated: int): (p: Post)
    ensures p.userId == req.userId && p.title == req.title && p.content == req.content && p.published == req.published
    ensures p.id == 0 && p.createdAt == created && p.updatedAt == updated
  {
    Post(0, req.userId, req.title, req.content, req.published, created, updated)
  }

  /** A request gets exactly the verdict, error included, of the post it
      converts to. */
  lemma ValidateRequestAgreesWithPost(req: CreatePostRequest, created: int, updated: int)
    ensures ValidateRequest(req) == Validate(ToPost(req, created, updated))
  {
  }

  /** A draft needs no content. */
  lemma DraftMayBeEmpty(p: Post)
    requires !p.published && p.content == ""
    requires ByteLen(p.title) >= 5 && p.userId > 0
    ensures Validate(p) == Pass
  {
  }
}
