/**
 * IssueService: the ownership predicates and lookups as functions of the
 * store, and the operations that change the issue and comment tables as
 * methods of a class that shares the store (the repositories) with
 * AccountService. Each method is one transaction: a failure leaves the store
 * as it was.
 */
module IssueService {
  import opened Wrappers
  import opened Entities
  import opened Repositories
  import opened IssueMapper
  import DtoValidation

  datatype CommentCreateDto = CommentCreateDto(content: Option<string>)

  /** CommentResponseDto without its timestamps. */
  datatype CommentResponse = CommentResponse(id: Id, content: Option<string>, author: Option<AccountResponse>)

  /** CommentMapper.toCommentResponseDto for the comment stored under `id`. */
  function ToCommentResponse(id: Id, c: Comment, accounts: map<Id, Account>): (r: CommentResponse)
    ensures r.id == id && r.content == c.content && r.author == ToAccountResponse(c.author, accounts)
  {
    CommentResponse(id, c.content, ToAccountResponse(c.author, accounts))
  }

  // ----- ownership predicates -----

  /** A non-null reference to a stored account whose email is `name`. */
  predicate HasEmail(accounts: map<Id, Account>, ref: Option<Id>, name: string)
  {
    ref.Some? && ref.value in accounts && accounts[ref.value].email == name
  }

  /** existsByIdAndAssigneeEmail */
  predicate IsUserAssignedToIssue(db: Db, issueId: Id, name: string)
  {
    issueId in db.issues && HasEmail(db.accounts, db.issues[issueId].assignee, name)
  }

  /** existsByIdAndAuthor_Email on issues */
  predicate IsAuthorIssue(db: Db, issueId: Id, name: string)
  {
    issueId in db.issues && HasEmail(db.accounts, db.issues[issueId].author, name)
  }

  /** existsByIdAndAuthor_Email on comments */
  predicate IsAuthorComment(db: Db, commentId: Id, name: string)
  {
    commentId in db.comments && HasEmail(db.accounts, db.comments[commentId].author, name)
  }

  // ----- lookups -----

  /** getIssueById */
  function GetIssueById(db: Db, issueId: Id): (r: Result<IssueResponse, Error>)
    ensures r.Failure? <==> issueId !in db.issues
    ensures r.Failure? ==> r.error == NotFound("Issue not found")
    ensures r.Success? ==> r.value == ToIssueResponse(issueId, db.issues[issueId], db.accounts)
  {
    if issueId in db.issues then Success(ToIssueResponse(issueId, db.issues[issueId], db.accounts))
    else Failure(NotFound("Issue not found"))
  }

  function Min(a: nat, b: nat): nat { if a <= b then a else b }

  /**
   * getCommentsPage: the first page of findByIssue_Id, at most `size`
   * comments of the issue (in no particular order). An unknown issue gives
   * an empty page, not an error.
   */
  method GetCommentsPage(db: Db, issueId: Id, size: nat) returns (page: seq<CommentResponse>)
    ensures |page| == Min(size, |CommentsOf(db.comments, issueId)|)
    ensures forall k :: 0 <= k < |page| ==>
      page[k].id in CommentsOf(db.comments, issueId) &&
      page[k] == ToCommentResponse(page[k].id, db.comments[page[k].id], db.accounts)
    ensures forall k, l :: 0 <= k < l < |page| ==> page[k].id != page[l].id
    ensures db.Valid() && issueId !in db.issues ==> page == []
  {
    if db.Valid() && issueId !in db.issues {
      NoCommentsOfUnknownIssue(db, issueId);
    }
    var all := CommentsOf(db.comments, issueId);
    var remaining := all;
    ghost var taken: set<Id> := {};
    page := [];
    while |page| < size && remaining != {}
      invariant remaining <= all && taken == all - remaining && |page| <= size
      invariant |page| == |taken| && |taken| + |remaining| == |all|
      invariant forall k :: 0 <= k < |page| ==>
        page[k].id in taken &&
        page[k] == ToCommentResponse(page[k].id, db.comments[page[k].id], db.accounts)
      invariant forall k, l :: 0 <= k < l < |page| ==> page[k].id != page[l].id
      decreases remaining
    {
      var c :| c in remaining;
      page := page + [ToCommentResponse(c, db.comments[c], db.accounts)];
      remaining := remaining - {c};
      taken := taken + {c};
    }
  }

  /** In a valid store every comment's issue exists, so an unknown issue has no comments. */
  lemma NoCommentsOfUnknownIssue(db: Db, issueId: Id)
    requires db.Valid() && issueId !in db.issues
    ensures CommentsOf(db.comments, issueId) == {}
  {
  }

  // ----- properties of the predicates -----

  /** isUserAssignedToIssue is false for an unknown issue and for an unassigned one. */
  lemma NotAssignedWithoutAssignee(db: Db, issueId: Id, name: string)
    requires issueId !in db.issues || db.issues[issueId].assignee.None?
    ensures !IsUserAssignedToIssue(db, issueId, name)
  {
  }

  /** isAuthorIssue holds iff getIssueById succeeds and shows the caller as author. */
  lemma AuthorIssueMatchesResponse(db: Db, issueId: Id, name: string)
    ensures IsAuthorIssue(db, issueId, name) <==>
      (GetIssueById(db, issueId).Success? &&
       GetIssueById(db, issueId).value.author.Some? &&
       GetIssueById(db, issueId).value.author.value.email == name)
  {
  }

  /** isUserAssignedToIssue holds iff getIssueById succeeds and shows the caller as assignee. */
  lemma AssigneeMatchesResponse(db: Db, issueId: Id, name: string)
    ensures IsUserAssignedToIssue(db, issueId, name) <==>
      (GetIssueById(db, issueId).Success? &&
       GetIssueById(db, issueId).value.assignee.Some? &&
       GetIssueById(db, issueId).value.assignee.value.email == name)
  {
  }

  /** In a valid store an issue's author always resolves, so isAuthorIssue compares emails only. */
  lemma AuthorIssueOnValidStore(db: Db, issueId: Id, name: string)
    requires db.Valid() && issueId in db.issues
    ensures IsAuthorIssue(db, issueId, name) <==> db.accounts[db.issues[issueId].author.value].email == name
  {
  }

  /**
   * isAuthorComment is false for an unknown comment; in a valid store an
   * existing comment's author always resolves, so it compares emails only.
   */
  lemma AuthorCommentOnValidStore(db: Db, commentId: Id, name: string)
    requires db.Valid()
    ensures commentId !in db.comments ==> !IsAuthorComment(db, commentId, name)
    ensures commentId in db.comments ==>
      (IsAuthorComment(db, commentId, name) <==> db.accounts[db.comments[commentId].author.value].email == name)
  {
  }

  /** Adding a comment with a fresh id to an issue grows that issue's comments by exactly one. */
  lemma CommentsOfInsert(comments: map<Id, Comment>, id: Id, c: Comment, issueId: Id)
    requires id !in comments && c.issue == Some(issueId)
    ensures CommentsOf(comments[id := c], issueId) == CommentsOf(comments, issueId) + {id}
    ensures |CommentsOf(comments[id := c], issueId)| == |CommentsOf(comments, issueId)| + 1
  {
  }

  // ----- operations that change the store -----

  class IssueService {
    const repo: Repositories

    constructor (repo: Repositories)
      ensures this.repo == repo
    {
      this.repo := repo;
    }

    /**
     * createIssue: the assignee is resolved first ("Assigned user not
     * exist"), then the caller's account, which becomes the author.
     */
    method CreateIssue(dto: IssueCreateDto, caller: string) returns (r: Result<IssueResponse, Error>)
      requires repo.Valid() && DtoValidation.NotBlank(dto.title)
      modifies repo
      ensures repo.Valid()
      ensures r.Failure? <==>
        ToIssue(dto, old(repo.accounts)).Failure? || AccountByEmail(old(repo.accounts), caller).Failure?
      ensures r.Failure? ==> unchanged(repo)
      ensures ToIssue(dto, old(repo.accounts)).Failure? ==> r == Failure(NotFound("Assigned user not exist"))
      ensures ToIssue(dto, old(repo.accounts)).Success? && AccountByEmail(old(repo.accounts), caller).Failure? ==>
        r == Failure(AccountByEmail(old(repo.accounts), caller).error)
      ensures r.Success? ==>
        var id := old(repo.nextIssueId);
        var issue := ToIssue(dto, old(repo.accounts)).value.(author := Some(AccountByEmail(old(repo.accounts), caller).value));
        && id !in old(repo.issues)
        && repo.View() == old(repo.View()).(issues := old(repo.issues)[id := issue])
        && r.value == ToIssueResponse(id, issue, repo.accounts)
      ensures r.Success? ==> r.value.author.Some? && r.value.author.value.email == caller
    {
      var mapped := ToIssue(dto, repo.accounts);
      if mapped.Failure? {
        return Failure(mapped.error);
      }
      var author := AccountByEmail(repo.accounts, caller);
      if author.Failure? {
        return Failure(author.error);
      }
      var issue := mapped.value.(author := Some(author.value));
      var id := repo.SaveNewIssue(issue);
      r := Success(ToIssueResponse(id, issue, repo.accounts));
    }

    /** updateIssue: full overwrite of the DTO-carried fields of an existing issue. */
    method UpdateIssue(issueId: Id, dto: IssueCreateDto) returns (r: Result<IssueResponse, Error>)
      requires repo.Valid() && DtoValidation.NotBlank(dto.title)
      modifies repo
      ensures repo.Valid()
      ensures r.Failure? <==> issueId !in old(repo.issues)
      ensures r.Failure? ==> r.error == NotFound("Issue not found") && unchanged(repo)
      ensures r.Success? ==>
        var updated := IssueMapper.UpdateIssue(dto, old(repo.issues)[issueId]);
        && repo.View() == old(repo.View()).(issues := old(repo.issues)[issueId := updated])
        && r.value == ToIssueResponse(issueId, updated, repo.accounts)
    {
      if issueId !in repo.issues {
        return Failure(NotFound("Issue not found"));
      }
      var updated := IssueMapper.UpdateIssue(dto, repo.issues[issueId]);
      repo.SaveIssue(issueId, updated);
      r := Success(ToIssueResponse(issueId, updated, repo.accounts));
    }

    /** patchIssue: overwrites only the fields the DTO gives a value. */
    method PatchIssue(issueId: Id, dto: IssueCreateDto) returns (r: Result<IssueResponse, Error>)
      requires repo.Valid() && DtoValidation.NotBlank(dto.title)
      modifies repo
      ensures repo.Valid()
      ensures r.Failure? <==> issueId !in old(repo.issues)
      ensures r.Failure? ==> r.error == NotFound("Issue not found") && unchanged(repo)
      ensures r.Success? ==>
        var patched := IssueMapper.PatchIssue(dto, old(repo.issues)[issueId]);
        && repo.View() == old(repo.View()).(issues := old(repo.issues)[issueId := patched])
        && r.value == ToIssueResponse(issueId, patched, repo.accounts)
    {
      if issueId !in repo.issues {
        return Failure(NotFound("Issue not found"));
      }
      var patched := IssueMapper.PatchIssue(dto, repo.issues[issueId]);
      repo.SaveIssue(issueId, patched);
      r := Success(ToIssueResponse(issueId, patched, repo.accounts));
    }

    /** deleteIssueById: removes the issue and, by cascade, its comments. */
    method DeleteIssueById(issueId: Id) returns (outcome: Outcome<Error>)
      requires repo.Valid()
      modifies repo
      ensures repo.Valid()
      ensures outcome.Fail? <==> issueId !in old(repo.issues)
      ensures outcome.Fail? ==> outcome.error == NotFound("Issue not found") && unchanged(repo)
      ensures outcome.Pass? ==> repo.View() == RemoveIssue(old(repo.View()), issueId)
      ensures outcome.Pass? ==> issueId !in repo.issues && CommentsOf(repo.comments, issueId) == {}
    {
      if issueId !in repo.issues {
        return Fail(NotFound("Issue not found"));
      }
      repo.DeleteIssue(issueId);
      outcome := Pass;
    }

    /** addComment: the caller's account is resolved first, then the issue. */
    method AddComment(issueId: Id, dto: CommentCreateDto, caller: string) returns (r: Result<CommentResponse, Error>)
      requires repo.Valid() && DtoValidation.NotBlank(dto.content)
      modifies repo
      ensures repo.Valid()
      ensures r.Failure? <==> AccountByEmail(old(repo.accounts), caller).Failure? || issueId !in old(repo.issues)
      ensures r.Failure? ==> unchanged(repo)
      ensures AccountByEmail(old(repo.accounts), caller).Failure? ==> r == Failure(AccountByEmail(old(repo.accounts), caller).error)
      ensures AccountByEmail(old(repo.accounts), caller).Success? && issueId !in old(repo.issues) ==>
        r == Failure(NotFound("Issue not found"))
      ensures r.Success? ==>
        var id := old(repo.nextCommentId);
        var c := Comment(dto.content, Some(AccountByEmail(old(repo.accounts), caller).value), Some(issueId));
        && id !in old(repo.comments)
        && repo.View() == old(repo.View()).(comments := old(repo.comments)[id := c])
        && r.value == ToCommentResponse(id, c, repo.accounts)
      ensures r.Success? ==>
        |CommentsOf(repo.comments, issueId)| == |CommentsOf(old(repo.comments), issueId)| + 1
    {
      var author := AccountByEmail(repo.accounts, caller);
      if author.Failure? {
        return Failure(author.error);
      }
      if issueId !in repo.issues {
        return Failure(NotFound("Issue not found"));
      }
      var c := Comment(dto.content, Some(author.value), Some(issueId));
      var id := repo.SaveNewComment(c);
      CommentsOfInsert(old(repo.comments), id, c, issueId);
      r := Success(ToCommentResponse(id, c, repo.accounts));
    }

    /** patchComment: replaces the content of the comment with that id on that issue. */
    method PatchComment(issueId: Id, commentId: Id, dto: CommentCreateDto) returns (r: Result<CommentResponse, Error>)
      requires repo.Valid() && DtoValidation.NotBlank(dto.content)
      modifies repo
      ensures repo.Valid()
      ensures r.Failure? <==> !(commentId in old(repo.comments) && old(repo.comments)[commentId].issue == Some(issueId))
      ensures r.Failure? ==> r.error == NotFound("Comment not found") && unchanged(repo)
      ensures r.Success? ==>
        var patched := old(repo.comments)[commentId].(content := dto.content);
        && repo.View() == old(repo.View()).(comments := old(repo.comments)[commentId := patched])
        && r.value == ToCommentResponse(commentId, patched, repo.accounts)
    {
      if !(commentId in repo.comments && repo.comments[commentId].issue == Some(issueId)) {
        return Failure(NotFound("Comment not found"));
      }
      var patched := repo.comments[commentId].(content := dto.content);
      repo.SaveComment(commentId, patched);
      r := Success(ToCommentResponse(commentId, patched, repo.accounts));
    }

    /** deleteComment: removes the comment with that id on that issue. */
    method DeleteComment(commentId: Id, issueId: Id) returns (outcome: Outcome<Error>)
      requires repo.Valid()
      modifies repo
      ensures repo.Valid()
      ensures outcome.Fail? <==> !(commentId in old(repo.comments) && old(repo.comments)[commentId].issue == Some(issueId))
      ensures outcome.Fail? ==> outcome.error == NotFound("Comment not found") && unchanged(repo)
      ensures outcome.Pass? ==> repo.View() == old(repo.View()).(comments := old(repo.comments) - {commentId})
    {
      if !(commentId in repo.comments && repo.comments[commentId].issue == Some(issueId)) {
        return Fail(NotFound("Comment not found"));
      }
      repo.DeleteComment(commentId);
      outcome := Pass;
    }
  }
}
