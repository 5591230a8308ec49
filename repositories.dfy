/**
 * The three Spring Data repositories as one in-memory store: a map per table,
 * from id to entity, and the generated-id counters. Db is the store as a
 * value; the class Repositories holds it as mutable fields. The derived
 * queries the services call (findByEmail, existsByEmail, findByIssue_Id, ...)
 * are functions over Db.
 */
module Repositories {
  import opened Wrappers
  import opened Entities

  datatype Db = Db(accounts: map<Id, Account>, issues: map<Id, Issue>, comments: map<Id, Comment>)
  {
    /** A non-null reference to a stored account. */
    predicate RefersToAccount(r: Option<Id>)
    {
      r.Some? && r.value in accounts
    }

    /** The columns Issue.java declares: title and author are NOT NULL, assignee is a nullable foreign key. */
    predicate IssueStorable(i: Issue)
    {
      && i.title.Some?
      && RefersToAccount(i.author)
      && (i.assignee.Some? ==> i.assignee.value in accounts)
    }

    /** The columns Comment.java declares: author and issue are NOT NULL foreign keys. */
    predicate CommentStorable(c: Comment)
    {
      RefersToAccount(c.author) && c.issue.Some? && c.issue.value in issues
    }

    /**
     * Every stored row satisfies its table's constraints: emails are unique,
     * no reference dangles, no required field is missing.
     */
    ghost predicate Valid()
    {
      && EmailsUnique(accounts)
      && (forall i :: i in issues ==> IssueStorable(issues[i]))
      && (forall c :: c in comments ==> CommentStorable(comments[c]))
    }
  }

  /** The unique constraint on the email column. */
  predicate EmailsUnique(accounts: map<Id, Account>)
  {
    forall a, b :: a in accounts && b in accounts && accounts[a].email == accounts[b].email ==> a == b
  }

  /** Some account other than `id` already has `email`. */
  predicate EmailTakenByOther(accounts: map<Id, Account>, id: Id, email: string)
  {
    exists k :: k in accounts && k != id && accounts[k].email == email
  }

  const EmptyDb := Db(map[], map[], map[])

  // ----- derived queries -----

  /** The ids of the accounts whose email is `email`. */
  function AccountsWithEmail(accounts: map<Id, Account>, email: string): set<Id>
  {
    set id | id in accounts && accounts[id].email == email
  }

  /** existsByEmail */
  predicate ExistsByEmail(accounts: map<Id, Account>, email: string)
  {
    exists id :: id in accounts && accounts[id].email == email
  }

  /** What findByEmail finds: nothing (an empty Optional), one account, or several (which Spring Data reports as an error). */
  datatype EmailLookup = NoMatch | Unique(id: Id) | Ambiguous

  lemma SingletonMember<T>(s: set<T>, x: T, y: T)
    requires |s| == 1 && x in s && y in s
    ensures x == y
  {
    if x != y {
      assert {x, y} <= s;
      assert |{x, y}| == 2;
      SubsetCardinality({x, y}, s);
    }
  }

  lemma SubsetCardinality<T>(a: set<T>, b: set<T>)
    requires a <= b
    ensures |a| <= |b|
  {
    assert b == a + (b - a);
  }

  /** findByEmail, with the case where several accounts share the email kept apart. */
  function FindByEmail(accounts: map<Id, Account>, email: string): (r: EmailLookup)
    ensures r.NoMatch? <==> !ExistsByEmail(accounts, email)
    ensures r.Unique? ==> r.id in accounts && accounts[r.id].email == email
    ensures r.Unique? ==> forall id :: id in accounts && accounts[id].email == email ==> id == r.id
    ensures r.Ambiguous? <==>
      exists a, b :: a in accounts && b in accounts && a != b && accounts[a].email == email && accounts[b].email == email
  {
    var ids := AccountsWithEmail(accounts, email);
    if |ids| == 0 then
      assert forall id :: id in accounts && accounts[id].email == email ==> id in ids;
      NoMatch
    else if |ids| == 1 then
      var id :| id in ids;
      assert forall x :: x in accounts && accounts[x].email == email ==> x in ids;
      assert forall x :: x in ids ==> x == id by {
        forall x | x in ids ensures x == id { SingletonMember(ids, x, id); }
      }
      Unique(id)
    else
      var a :| a in ids;
      assert |ids - {a}| > 0;
      var b :| b in ids - {a};
      Ambiguous
  }

  /**
   * findByEmail(...).orElseThrow(() -> new ...("Account not found")), as the
   * services call it to resolve the caller.
   */
  function AccountByEmail(accounts: map<Id, Account>, email: string): (r: Result<Id, Error>)
    ensures r.Success? <==> FindByEmail(accounts, email).Unique?
    ensures r.Success? ==> r.value in accounts && accounts[r.value].email == email
    ensures FindByEmail(accounts, email).NoMatch? ==> r == Failure(NotFound("Account not found"))
    ensures FindByEmail(accounts, email).Ambiguous? ==> r == Failure(IncorrectResultSize(email))
  {
    match FindByEmail(accounts, email)
    case NoMatch => Failure(NotFound("Account not found"))
    case Unique(id) => Success(id)
    case Ambiguous => Failure(IncorrectResultSize(email))
  }

  /**
   * Under the unique email column a lookup never finds several accounts:
   * it resolves exactly when some account has the email.
   */
  lemma UniqueEmailsNeverAmbiguous(accounts: map<Id, Account>, email: string)
    requires EmailsUnique(accounts)
    ensures !FindByEmail(accounts, email).Ambiguous?
    ensures AccountByEmail(accounts, email).Success? <==> ExistsByEmail(accounts, email)
  {
  }

  /** The ids of the comments whose issue is `issueId` (the issue's `comments` list). */
  function CommentsOf(comments: map<Id, Comment>, issueId: Id): set<Id>
  {
    set c | c in comments && comments[c].issue == Some(issueId)
  }

  /** Whether an issue names the account as author or assignee (a foreign key with no ON DELETE action). */
  predicate ReferencedByIssue(db: Db, accountId: Id)
  {
    exists i :: i in db.issues && (db.issues[i].author == Some(accountId) || db.issues[i].assignee == Some(accountId))
  }

  // ----- cascades -----

  /**
   * Deleting an issue: cascade = ALL with orphanRemoval on Issue.comments
   * deletes the issue's comments with it.
   */
  function RemoveIssue(db: Db, issueId: Id): (r: Db)
    requires db.Valid()
    ensures r.Valid()
    ensures r.accounts == db.accounts && r.issues == db.issues - {issueId}
    ensures r.comments.Keys == db.comments.Keys - CommentsOf(db.comments, issueId)
    ensures forall c :: c in r.comments ==> r.comments[c] == db.comments[c]
  {
    db.(issues := db.issues - {issueId},
        comments := map c | c in db.comments && db.comments[c].issue != Some(issueId) :: db.comments[c])
  }

  /** The ids of the comments the account wrote. */
  function CommentsBy(comments: map<Id, Comment>, accountId: Id): set<Id>
  {
    set c | c in comments && comments[c].author == Some(accountId)
  }

  /**
   * Deleting an account no issue refers to: ON DELETE CASCADE on
   * Comment.author deletes the comments it wrote.
   */
  function RemoveAccount(db: Db, accountId: Id): (r: Db)
    requires db.Valid() && !ReferencedByIssue(db, accountId)
    ensures r.Valid()
    ensures accountId !in r.accounts && r.accounts == db.accounts - {accountId} && r.issues == db.issues
    ensures r.comments.Keys == db.comments.Keys - CommentsBy(db.comments, accountId)
    ensures forall c :: c in r.comments ==> r.comments[c] == db.comments[c]
  {
    var r := db.(accounts := db.accounts - {accountId},
                 comments := map c | c in db.comments && db.comments[c].author != Some(accountId) :: db.comments[c]);
    assert forall i :: i in db.issues ==> db.issues[i].author != Some(accountId) && db.issues[i].assignee != Some(accountId);
    r
  }

  /**
   * The store. Each table's ids come from its own counter, so a saved
   * entity always gets a key no row of that table has.
   */
  class Repositories {
    var accounts: map<Id, Account>
    var issues: map<Id, Issue>
    var comments: map<Id, Comment>
    var nextAccountId: Id
    var nextIssueId: Id
    var nextCommentId: Id

    function View(): Db
      reads this
    {
      Db(accounts, issues, comments)
    }

    ghost predicate Valid()
      reads this
    {
      && View().Valid()
      && (forall a :: a in accounts ==> a < nextAccountId)
      && (forall i :: i in issues ==> i < nextIssueId)
      && (forall c :: c in comments ==> c < nextCommentId)
    }

    constructor ()
      ensures Valid() && View() == EmptyDb
    {
      accounts, issues, comments := map[], map[], map[];
      nextAccountId, nextIssueId, nextCommentId := 0, 0, 0;
    }

    /**
     * save of a new Account: inserts it under a fresh id, unless the unique
     * email column already holds its email.
     */
    method SaveNewAccount(a: Account) returns (r: Result<Id, Error>)
      requires Valid()
      modifies this`accounts, this`nextAccountId
      ensures Valid()
      ensures r.Failure? <==> ExistsByEmail(old(accounts), a.email)
      ensures r.Failure? ==> r.error == DuplicateEmail(a.email) && unchanged(this)
      ensures r.Success? ==> r.value !in old(accounts) && r.value == old(nextAccountId)
      ensures r.Success? ==> View() == old(View()).(accounts := old(accounts)[r.value := a])
    {
      if ExistsByEmail(accounts, a.email) {
        return Failure(DuplicateEmail(a.email));
      }
      var id := nextAccountId;
      accounts := accounts[id := a];
      nextAccountId := nextAccountId + 1;
      r := Success(id);
    }

    /**
     * Overwrites a stored account (save of a managed entity), unless another
     * account already has the new email.
     */
    method SaveAccount(id: Id, a: Account) returns (outcome: Outcome<Error>)
      requires Valid() && id in accounts
      modifies this`accounts
      ensures Valid()
      ensures outcome.Fail? <==> EmailTakenByOther(old(accounts), id, a.email)
      ensures outcome.Fail? ==> outcome.error == DuplicateEmail(a.email) && unchanged(this)
      ensures outcome.Pass? ==> View() == old(View()).(accounts := old(accounts)[id := a])
    {
      if EmailTakenByOther(accounts, id, a.email) {
        return Fail(DuplicateEmail(a.email));
      }
      accounts := accounts[id := a];
      outcome := Pass;
    }

    /** save of a new Issue: inserts it under a fresh id. */
    method SaveNewIssue(i: Issue) returns (id: Id)
      requires Valid() && View().IssueStorable(i)
      modifies this`issues, this`nextIssueId
      ensures Valid()
      ensures id !in old(issues) && id == old(nextIssueId)
      ensures View() == old(View()).(issues := old(issues)[id := i])
    {
      id := nextIssueId;
      issues := issues[id := i];
      nextIssueId := nextIssueId + 1;
    }

    /** Writes back a managed issue (the flush at the end of the transaction). */
    method SaveIssue(id: Id, i: Issue)
      requires Valid() && id in issues && View().IssueStorable(i)
      modifies this`issues
      ensures Valid()
      ensures View() == old(View()).(issues := old(issues)[id := i])
    {
      issues := issues[id := i];
    }

    /** save of a new Comment: inserts it under a fresh id. */
    method SaveNewComment(c: Comment) returns (id: Id)
      requires Valid() && View().CommentStorable(c)
      modifies this`comments, this`nextCommentId
      ensures Valid()
      ensures id !in old(comments) && id == old(nextCommentId)
      ensures View() == old(View()).(comments := old(comments)[id := c])
    {
      id := nextCommentId;
      comments := comments[id := c];
      nextCommentId := nextCommentId + 1;
    }

    /** save of a managed Comment. */
    method SaveComment(id: Id, c: Comment)
      requires Valid() && id in comments && View().CommentStorable(c)
      modifies this`comments
      ensures Valid()
      ensures View() == old(View()).(comments := old(comments)[id := c])
    {
      comments := comments[id := c];
    }

    /** deleteById on the issue table, with the comment cascade. */
    method DeleteIssue(id: Id)
      requires Valid()
      modifies this`issues, this`comments
      ensures Valid()
      ensures View() == RemoveIssue(old(View()), id)
    {
      var r := RemoveIssue(View(), id);
      issues, comments := r.issues, r.comments;
    }

    /** deleteByIdAndIssue_Id on the comment table. */
    method DeleteComment(id: Id)
      requires Valid()
      modifies this`comments
      ensures Valid()
      ensures View() == old(View()).(comments := old(comments) - {id})
    {
      comments := comments - {id};
    }

    /**
     * delete on the account table. The database refuses it while an issue
     * refers to the account; otherwise the account's comments go with it.
     */
    method DeleteAccount(id: Id) returns (outcome: Outcome<Error>)
      requires Valid()
      modifies this`accounts, this`comments
      ensures Valid()
      ensures outcome.Fail? <==> ReferencedByIssue(old(View()), id)
      ensures outcome.Fail? ==> outcome.error == DataIntegrityViolation(id) && View() == old(View())
      ensures outcome.Pass? ==> View() == RemoveAccount(old(View()), id)
    {
      if ReferencedByIssue(View(), id) {
        return Fail(DataIntegrityViolation(id));
      }
      var r := RemoveAccount(View(), id);
      accounts, comments := r.accounts, r.comments;
      outcome := Pass;
    }
  }
}
