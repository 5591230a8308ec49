/**
 * The access policy of the /issues endpoints (and of DELETE /accounts/{id})
 * as one predicate over the caller and the store, and the controller that
 * applies it in front of IssueService. Request bodies are validated first
 * (argument resolution), then the guard runs, then the service.
 */
module IssueController {
  import opened Wrappers
  import opened Entities
  import opened Repositories
  import opened IssueMapper
  import opened IssueService
  import AccountService
  import DtoValidation

  /** The authenticated principal: its name (the account's email) and its granted authorities. */
  datatype Caller = Caller(name: string, authorities: set<string>)

  /** The principal Spring Security builds from loadUserByUsername's result. */
  function CallerOf(u: AccountService.UserDetails): (c: Caller)
    ensures c.name == u.username && c.authorities == u.authorities
  {
    Caller(u.username, u.authorities)
  }

  /** hasRole('...'): the caller holds the authority ROLE_<name>. */
  predicate HasRole(caller: Caller, role: Role)
  {
    AccountService.RoleAuthority(role) in caller.authorities
  }

  datatype Endpoint =
    | CreateIssue                                   // POST   /issues
    | ListIssues                                    // GET    /issues
    | GetIssue(issueId: Id)                         // GET    /issues/{issueId}
    | PutIssue(issueId: Id)                         // PUT    /issues/{issueId}
    | PatchIssue(issueId: Id)                       // PATCH  /issues/{issueId}
    | AddComment(issueId: Id)                       // POST   /issues/{issueId}/comments
    | ListComments(issueId: Id)                     // GET    /issues/{issueId}/comments
    | PatchComment(issueId: Id, commentId: Id)      // PATCH  /issues/{issueId}/comments/{commentId}
    | DeleteComment(issueId: Id, commentId: Id)     // DELETE /issues/{issueId}/comments/{commentId}
    | DeleteIssue(issueId: Id)                      // DELETE /issues/{issueId}
    | DeleteAccountById(accountId: Id)              // DELETE /accounts/{id}

  /** The endpoints guarded by "hasRole('ADMIN') or isUserAssignedToIssue(#issueId, ...)". */
  predicate AssigneeGuarded(e: Endpoint)
  {
    e.GetIssue? || e.PutIssue? || e.PatchIssue? || e.AddComment? || e.ListComments?
  }

  /** The endpoints guarded by "isAuthorComment(#commentId, ...)". */
  predicate CommentAuthorGuarded(e: Endpoint)
  {
    e.PatchComment? || e.DeleteComment?
  }

  /** The @PreAuthorize expression of each endpoint. */
  predicate Authorize(caller: Caller, e: Endpoint, db: Db)
  {
    if e.CreateIssue? || e.ListIssues? || e.DeleteAccountById? then HasRole(caller, ADMIN)
    else if AssigneeGuarded(e) then HasRole(caller, ADMIN) || IsUserAssignedToIssue(db, e.issueId, caller.name)
    else if CommentAuthorGuarded(e) then IsAuthorComment(db, e.commentId, caller.name)
    else IsAuthorIssue(db, e.issueId, caller.name)
  }

  // ----- properties of the policy -----

  /**
   * Deleting an issue and editing or deleting a comment depend on the
   * caller's name only: holding ROLE_ADMIN changes nothing there.
   */
  lemma AuthorGuardsIgnoreRoles(c1: Caller, c2: Caller, e: Endpoint, db: Db)
    requires c1.name == c2.name && (e.DeleteIssue? || CommentAuthorGuarded(e))
    ensures Authorize(c1, e, db) <==> Authorize(c2, e, db)
  {
  }

  /** An administrator who did not write the issue or the comment is refused. */
  lemma AdminNotEnough(caller: Caller, e: Endpoint, db: Db)
    requires HasRole(caller, ADMIN)
    requires e.DeleteIssue? ==> !IsAuthorIssue(db, e.issueId, caller.name)
    requires CommentAuthorGuarded(e) ==> !IsAuthorComment(db, e.commentId, caller.name)
    ensures Authorize(caller, e, db) <==> !(e.DeleteIssue? || CommentAuthorGuarded(e))
  {
  }

  /** Being the assignee lets a caller edit an issue and comment on it, but not delete it. */
  lemma AssigneeCannotDelete(caller: Caller, issueId: Id, db: Db)
    requires IsUserAssignedToIssue(db, issueId, caller.name) && !IsAuthorIssue(db, issueId, caller.name)
    ensures Authorize(caller, PutIssue(issueId), db) && Authorize(caller, AddComment(issueId), db)
    ensures !Authorize(caller, DeleteIssue(issueId), db)
  {
  }

  /** The comment guard reads only the comment id: the issue id in the path plays no part. */
  lemma CommentGuardIgnoresIssue(caller: Caller, i1: Id, i2: Id, commentId: Id, db: Db)
    ensures Authorize(caller, PatchComment(i1, commentId), db) <==> Authorize(caller, PatchComment(i2, commentId), db)
    ensures Authorize(caller, DeleteComment(i1, commentId), db) <==> Authorize(caller, DeleteComment(i2, commentId), db)
    ensures Authorize(caller, PatchComment(i1, commentId), db) <==> Authorize(caller, DeleteComment(i2, commentId), db)
  {
  }

  /**
   * A request that passes a guard without ROLE_ADMIN names an entity that
   * exists: the ownership predicates are false for unknown ids.
   */
  lemma NonAdminAuthorizationNeedsEntity(caller: Caller, e: Endpoint, db: Db)
    requires Authorize(caller, e, db) && !HasRole(caller, ADMIN)
    ensures !(e.CreateIssue? || e.ListIssues? || e.DeleteAccountById?)
    ensures AssigneeGuarded(e) || e.DeleteIssue? ==> e.issueId in db.issues
    ensures CommentAuthorGuarded(e) ==> e.commentId in db.comments
  {
  }

  /**
   * A caller who logged in as an account may use the ADMIN-only endpoints
   * iff that account's role is ADMIN.
   */
  lemma AdminEndpointsFollowStoredRole(accounts: map<Id, Account>, email: string, e: Endpoint, db: Db)
    requires AccountService.LoadUserByUsername(accounts, email).Success?
    requires e.CreateIssue? || e.ListIssues? || e.DeleteAccountById?
    ensures Authorize(CallerOf(AccountService.LoadUserByUsername(accounts, email).value), e, db) <==>
      accounts[FindByEmail(accounts, email).id].role == ADMIN
  {
    AccountService.AdminAuthorityIffAdminRole(accounts, email);
  }

  /** A small store: an author, an administrator, two issues and one comment on issue 0. */
  function SampleDb(): (db: Db)
    ensures db.Valid()
    ensures 0 in db.comments && db.comments[0].issue == Some(0) && 1 in db.issues
  {
    Db(map[0 := NewAccount("author@example.com", "h0"), 1 := Account("admin@example.com", "h1", ADMIN)],
       map[0 := NewIssue().(title := Some("first"), author := Some(0)),
           1 := NewIssue().(title := Some("second"), author := Some(0))],
       map[0 := Comment(Some("looks good"), Some(0), Some(0))])
  }

  /**
   * The author of comment 0 passes the guard of PATCH /issues/1/comments/0
   * although comment 0 belongs to issue 0; only the service's pair lookup
   * turns the request away. The administrator is refused outright.
   */
  lemma CommentGuardPassesForForeignIssue()
    ensures Authorize(Caller("author@example.com", {"ROLE_USER"}), PatchComment(1, 0), SampleDb())
    ensures SampleDb().comments[0].issue != Some(1)
    ensures !Authorize(Caller("admin@example.com", {"ROLE_ADMIN"}), PatchComment(0, 0), SampleDb())
    ensures !Authorize(Caller("admin@example.com", {"ROLE_ADMIN"}), DeleteIssue(0), SampleDb())
  {
  }

  // ----- the controller -----

  datatype Request = Request(endpoint: Endpoint, issueBody: IssueCreateDto, commentBody: CommentCreateDto, pageSize: nat)

  datatype Response =
    | BadRequest
    | Forbidden
    | Failed(error: Error)
    | IssueBody(issue: IssueResponse)
    | CommentBody(comment: CommentResponse)
    | CommentPage(page: seq<CommentResponse>)
    | NoContent

  /** @Valid on the request body: @NotBlank title on issue bodies, @NotBlank content on comment bodies. */
  predicate BodyValid(r: Request)
  {
    if r.endpoint.CreateIssue? || r.endpoint.PutIssue? || r.endpoint.PatchIssue? then DtoValidation.NotBlank(r.issueBody.title)
    else if r.endpoint.AddComment? || r.endpoint.PatchComment? then DtoValidation.NotBlank(r.commentBody.content)
    else true
  }

  /** The endpoints IssueController serves with a modelled service call. */
  predicate Routed(e: Endpoint)
  {
    !e.ListIssues? && !e.DeleteAccountById?
  }

  class IssueController {
    const service: IssueService

    constructor (service: IssueService)
      ensures this.service == service
    {
      this.service := service;
    }

    method Handle(caller: Caller, req: Request) returns (resp: Response)
      requires service.repo.Valid() && Routed(req.endpoint)
      modifies service.repo
      ensures service.repo.Valid()
      ensures !BodyValid(req) ==> resp == BadRequest
      ensures BodyValid(req) && !Authorize(caller, req.endpoint, old(service.repo.View())) ==> resp == Forbidden
      ensures resp.BadRequest? || resp.Forbidden? || resp.Failed? ==> unchanged(service.repo)
      ensures BodyValid(req) && Authorize(caller, req.endpoint, old(service.repo.View())) ==>
        !resp.BadRequest? && !resp.Forbidden?
      ensures req.endpoint.GetIssue? && Authorize(caller, req.endpoint, old(service.repo.View())) ==>
        resp == (match GetIssueById(old(service.repo.View()), req.endpoint.issueId)
                 case Success(v) => IssueBody(v)
                 case Failure(e) => Failed(e))
      ensures req.endpoint.DeleteIssue? && Authorize(caller, req.endpoint, old(service.repo.View())) ==>
        resp == NoContent && service.repo.View() == RemoveIssue(old(service.repo.View()), req.endpoint.issueId)
      ensures CommentAuthorGuarded(req.endpoint) && BodyValid(req) && Authorize(caller, req.endpoint, old(service.repo.View())) ==>
        (resp == Failed(NotFound("Comment not found")) <==>
          old(service.repo.comments)[req.endpoint.commentId].issue != Some(req.endpoint.issueId))
      ensures AssigneeGuarded(req.endpoint) && !req.endpoint.ListComments? && BodyValid(req) &&
              Authorize(caller, req.endpoint, old(service.repo.View())) && !HasRole(caller, ADMIN) ==>
        resp != Failed(NotFound("Issue not found"))
    {
      var e := req.endpoint;
      if !BodyValid(req) {
        return BadRequest;
      }
      if !Authorize(caller, e, service.repo.View()) {
        return Forbidden;
      }
      match e {
        case CreateIssue =>
          var r := service.CreateIssue(req.issueBody, caller.name);
          resp := if r.Success? then IssueBody(r.value) else Failed(r.error);
        case GetIssue(i) =>
          var r := GetIssueById(service.repo.View(), i);
          resp := if r.Success? then IssueBody(r.value) else Failed(r.error);
        case PutIssue(i) =>
          var r := service.UpdateIssue(i, req.issueBody);
          resp := if r.Success? then IssueBody(r.value) else Failed(r.error);
        case PatchIssue(i) =>
          var r := service.PatchIssue(i, req.issueBody);
          resp := if r.Success? then IssueBody(r.value) else Failed(r.error);
        case AddComment(i) =>
          var r := service.AddComment(i, req.commentBody, caller.name);
          resp := if r.Success? then CommentBody(r.value) else Failed(r.error);
        case ListComments(i) =>
          var page := GetCommentsPage(service.repo.View(), i, req.pageSize);
          resp := CommentPage(page);
        case PatchComment(i, c) =>
          var r := service.PatchComment(i, c, req.commentBody);
          resp := if r.Success? then CommentBody(r.value) else Failed(r.error);
        case DeleteComment(i, c) =>
          var r := service.DeleteComment(c, i);
          resp := if r.Pass? then NoContent else Failed(r.error);
        case DeleteIssue(i) =>
          var r := service.DeleteIssueById(i);
          resp := match r
            case Pass => NoContent
            case Fail(err) => Failed(err);
      }
    }
  }
}
