/**
 * IssueMapper: the MapStruct mappings between IssueCreateDto, Issue and
 * IssueResponseDto, with MapStruct's default strategies made explicit:
 * toIssue and updateIssue copy every DTO property, nulls included;
 * patchIssue (nullValuePropertyMappingStrategy = IGNORE) copies only the
 * non-null ones. The DTO carries title, description, idAssignee,
 * currentStatus and priority; only toIssue turns idAssignee into an assignee.
 */
module IssueMapper {
  import opened Wrappers
  import opened Entities

  datatype IssueCreateDto = IssueCreateDto(
    title: Option<string>,
    description: Option<string>,
    idAssignee: Option<Id>,
    currentStatus: Option<Status>,
    priority: Option<Priority>)

  /** The DTO whose every property is null. */
  const EmptyDto := IssueCreateDto(None, None, None, None, None)

  /** AccountResponseDto: an account seen from outside, id and email only. */
  datatype AccountResponse = AccountResponse(id: Id, email: string)

  /** IssueResponseDto without its timestamps. */
  datatype IssueResponse = IssueResponse(
    id: Id,
    title: Option<string>,
    description: Option<string>,
    author: Option<AccountResponse>,
    assignee: Option<AccountResponse>,
    currentStatus: Option<Status>,
    priority: Option<Priority>)

  /** toAccount: null stays null without a lookup; an unknown id throws. */
  function ToAccount(id: Option<Id>, accounts: map<Id, Account>): (r: Result<Option<Id>, Error>)
    ensures id.None? ==> r == Success(None)
    ensures id.Some? ==> (r.Success? <==> id.value in accounts)
    ensures r.Success? ==> r.value == id
    ensures r.Failure? ==> r.error == NotFound("Assigned user not exist")
  {
    match id
    case None => Success(None)
    case Some(k) => if k in accounts then Success(Some(k)) else Failure(NotFound("Assigned user not exist"))
  }

  /** updateIssue: every DTO-carried field is overwritten, with null where the DTO has null. */
  function UpdateIssue(dto: IssueCreateDto, issue: Issue): (r: Issue)
    ensures r.title == dto.title && r.description == dto.description
    ensures r.currentStatus == dto.currentStatus && r.priority == dto.priority
    ensures r.author == issue.author && r.assignee == issue.assignee
  {
    issue.(title := dto.title, description := dto.description,
           currentStatus := dto.currentStatus, priority := dto.priority)
  }

  /** The DTO's value where it has one, the old value where the DTO has null. */
  function Merge<T>(fromDto: Option<T>, current: Option<T>): Option<T>
  {
    if fromDto.Some? then fromDto else current
  }

  /** patchIssue: a field is overwritten only where the DTO's value is not null. */
  function PatchIssue(dto: IssueCreateDto, issue: Issue): (r: Issue)
    ensures dto.title.None? ==> r.title == issue.title
    ensures dto.title.Some? ==> r.title == dto.title
    ensures dto.description.None? ==> r.description == issue.description
    ensures dto.description.Some? ==> r.description == dto.description
    ensures dto.currentStatus.None? ==> r.currentStatus == issue.currentStatus
    ensures dto.currentStatus.Some? ==> r.currentStatus == dto.currentStatus
    ensures dto.priority.None? ==> r.priority == issue.priority
    ensures dto.priority.Some? ==> r.priority == dto.priority
    ensures r.author == issue.author && r.assignee == issue.assignee
  {
    issue.(title := Merge(dto.title, issue.title),
           description := Merge(dto.description, issue.description),
           currentStatus := Merge(dto.currentStatus, issue.currentStatus),
           priority := Merge(dto.priority, issue.priority))
  }

  /**
   * toIssue: a `new Issue()` with every DTO property copied onto it and the
   * assignee resolved by toAccount. The author is left null for the caller
   * to set. A null status or priority in the DTO overwrites the field
   * default.
   */
  function ToIssue(dto: IssueCreateDto, accounts: map<Id, Account>): (r: Result<Issue, Error>)
    ensures r.Failure? <==> (dto.idAssignee.Some? && dto.idAssignee.value !in accounts)
    ensures r.Failure? ==> r.error == NotFound("Assigned user not exist")
    ensures r.Success? ==> r.value == UpdateIssue(dto, NewIssue()).(assignee := dto.idAssignee)
  {
    match ToAccount(dto.idAssignee, accounts)
    case Failure(e) => Failure(e)
    case Success(assignee) =>
      Success(Issue(dto.title, dto.description, None, assignee, dto.currentStatus, dto.priority))
  }

  /** An account reference as an AccountResponseDto (null for null). */
  function ToAccountResponse(ref: Option<Id>, accounts: map<Id, Account>): (r: Option<AccountResponse>)
    ensures r.Some? <==> ref.Some? && ref.value in accounts
    ensures r.Some? ==> r.value.id == ref.value && r.value.email == accounts[ref.value].email
  {
    if ref.Some? && ref.value in accounts then Some(AccountResponse(ref.value, accounts[ref.value].email)) else None
  }

  /** toIssueResponseDto for the issue stored under `id`. */
  function ToIssueResponse(id: Id, issue: Issue, accounts: map<Id, Account>): (r: IssueResponse)
    ensures r.id == id && r.title == issue.title && r.description == issue.description
    ensures r.currentStatus == issue.currentStatus && r.priority == issue.priority
    ensures r.author == ToAccountResponse(issue.author, accounts)
    ensures r.assignee == ToAccountResponse(issue.assignee, accounts)
  {
    IssueResponse(id, issue.title, issue.description,
                  ToAccountResponse(issue.author, accounts), ToAccountResponse(issue.assignee, accounts),
                  issue.currentStatus, issue.priority)
  }

  // ----- properties of the merges -----

  /** Applying updateIssue twice with one DTO is applying it once. */
  lemma UpdateIdempotent(dto: IssueCreateDto, issue: Issue)
    ensures UpdateIssue(dto, UpdateIssue(dto, issue)) == UpdateIssue(dto, issue)
  {
  }

  /** Applying patchIssue twice with one DTO is applying it once. */
  lemma PatchIdempotent(dto: IssueCreateDto, issue: Issue)
    ensures PatchIssue(dto, PatchIssue(dto, issue)) == PatchIssue(dto, issue)
  {
  }

  /** patchIssue with an all-null DTO changes nothing. */
  lemma PatchEmptyIsIdentity(issue: Issue)
    ensures PatchIssue(EmptyDto, issue) == issue
  {
  }

  /** Where the DTO has no nulls, patching and updating agree. */
  lemma PatchOfCompleteDtoIsUpdate(dto: IssueCreateDto, issue: Issue)
    requires dto.title.Some? && dto.description.Some? && dto.currentStatus.Some? && dto.priority.Some?
    ensures PatchIssue(dto, issue) == UpdateIssue(dto, issue)
  {
  }

  /** updateIssue forgets every DTO-carried field of the target: only author and assignee survive. */
  lemma UpdateForgetsCarriedFields(dto: IssueCreateDto, a: Issue, b: Issue)
    requires a.author == b.author && a.assignee == b.assignee
    ensures UpdateIssue(dto, a) == UpdateIssue(dto, b)
  {
  }

  /** Neither merge touches the author or the assignee, whatever the DTO says (idAssignee included). */
  lemma MergesKeepOwnership(dto: IssueCreateDto, issue: Issue)
    ensures UpdateIssue(dto, issue).author == issue.author && PatchIssue(dto, issue).author == issue.author
    ensures UpdateIssue(dto, issue).assignee == issue.assignee && PatchIssue(dto, issue).assignee == issue.assignee
  {
  }

  /** An update carrying only a title clears the description; a patch carrying only a title keeps it. */
  lemma TitleOnlyDto(title: string, issue: Issue)
    ensures UpdateIssue(EmptyDto.(title := Some(title)), issue).description.None?
    ensures PatchIssue(EmptyDto.(title := Some(title)), issue).description == issue.description
    ensures UpdateIssue(EmptyDto.(title := Some(title)), issue).title == Some(title)
    ensures PatchIssue(EmptyDto.(title := Some(title)), issue).title == Some(title)
  {
  }

  /** Patching with d1 then d2 is patching once with d2's values laid over d1's. */
  lemma PatchesCompose(d1: IssueCreateDto, d2: IssueCreateDto, issue: Issue)
    ensures PatchIssue(d2, PatchIssue(d1, issue)) ==
      PatchIssue(IssueCreateDto(Merge(d2.title, d1.title), Merge(d2.description, d1.description),
                                Merge(d2.idAssignee, d1.idAssignee),
                                Merge(d2.currentStatus, d1.currentStatus), Merge(d2.priority, d1.priority)), issue)
  {
  }

  /** A DTO without a status creates an issue whose status is null, not the BACKLOG default. */
  lemma ToIssueOverwritesDefaults(dto: IssueCreateDto, accounts: map<Id, Account>)
    requires ToIssue(dto, accounts).Success?
    ensures ToIssue(dto, accounts).value.currentStatus == dto.currentStatus
    ensures ToIssue(dto, accounts).value.priority == dto.priority
    ensures dto.currentStatus.None? ==> ToIssue(dto, accounts).value.currentStatus != NewIssue().currentStatus
  {
  }

  /** The response is the same whatever the stored passwords are: only ids and emails are exposed. */
  lemma ResponseIgnoresPasswords(id: Id, issue: Issue, a1: map<Id, Account>, a2: map<Id, Account>)
    requires a1.Keys == a2.Keys
    requires forall k :: k in a1 ==> a1[k].email == a2[k].email
    ensures ToIssueResponse(id, issue, a1) == ToIssueResponse(id, issue, a2)
  {
  }
}
