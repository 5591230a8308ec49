/**
 * The JPA entities Account, Issue and Comment as plain records, and the
 * exceptions the services throw.
 *
 * Ids are not fields of the records: an entity's id is its key in the map of
 * the repository that stores it. A Java reference to another entity (an
 * issue's author, a comment's issue) is held as the id of that entity; a
 * nullable Java field is an Option.
 */
module Entities {
  import opened Wrappers

  /** A generated primary key. */
  type Id = nat

  datatype Role = USER | ADMIN

  /** Issue status; any value may be set, there is no transition graph. */
  datatype Status = BACKLOG | IN_PROGRESS | IN_REVIEW | DONE

  datatype Priority = NO_PRIORITY | LOW | MEDIUM | HIGH

  /** An account; `password` is what is stored, normally a BCrypt hash. */
  datatype Account = Account(email: string, password: string, role: Role)

  /**
   * An issue as the entity holds it. Every field may be null in memory; the
   * database demands a title and an author of every stored row, which
   * Repositories.Db.Valid states. The comments list is the inverse of
   * Comment.issue and is derived from the comment table
   * (Repositories.CommentsOf).
   */
  datatype Issue = Issue(
    title: Option<string>,
    description: Option<string>,
    author: Option<Id>,
    assignee: Option<Id>,
    currentStatus: Option<Status>,
    priority: Option<Priority>)

  /** A comment as the entity holds it; author and issue are required in storage. */
  datatype Comment = Comment(content: Option<string>, author: Option<Id>, issue: Option<Id>)

  /** `new Issue()`: only the two field initialisers are set. */
  function NewIssue(): (i: Issue)
    ensures i.currentStatus == Some(BACKLOG) && i.priority == Some(NO_PRIORITY)
    ensures i.title.None? && i.description.None? && i.author.None? && i.assignee.None?
  {
    Issue(None, None, None, None, Some(BACKLOG), Some(NO_PRIORITY))
  }

  /** A new account (as AccountService.create builds it) has the role USER. */
  function NewAccount(email: string, password: string): (a: Account)
    ensures a.role == USER && a.email == email && a.password == password
  {
    Account(email, password, USER)
  }

  /** The exceptions thrown by the services, with the messages they carry. */
  datatype Error =
    | NotFound(message: string)            // EntityNotFoundException / NotFoundException
    | AlreadyExists(message: string)       // AlreadyExistsException
    | UsernameNotFound(username: string)   // UsernameNotFoundException
    | IncorrectResultSize(email: string)   // a findByEmail that matches several accounts
    | DataIntegrityViolation(accountId: Id) // deleting an account that an issue still references
    | DuplicateEmail(email: string)        // a save that would give two accounts one email (unique column)
}
