/**
 * AccountService: registration with the email-uniqueness check, the lookups
 * by the caller's identity (including the credential lookup Spring Security
 * uses at login), and self update/delete plus the administrator's delete by
 * id. BCrypt is outside the model: Create receives the encoder's output.
 */
module AccountService {
  import opened Wrappers
  import opened Entities
  import opened Repositories
  import opened IssueMapper
  import DtoValidation

  datatype AccountCreateDto = AccountCreateDto(email: string, password: Option<string>)

  /** The UserDetails handed to Spring Security: username, stored hash and granted authorities. */
  datatype UserDetails = UserDetails(username: string, password: string, authorities: set<string>)

  function RoleName(role: Role): string
  {
    match role
    case USER => "USER"
    case ADMIN => "ADMIN"
  }

  /** User.roles(name) grants the authority "ROLE_" + name, which hasRole(name) looks for. */
  function RoleAuthority(role: Role): (a: string)
    ensures a == "ROLE_" + RoleName(role)
    ensures role == USER ==> a == "ROLE_USER"
    ensures role == ADMIN ==> a == "ROLE_ADMIN"
  {
    "ROLE_" + RoleName(role)
  }

  /** Distinct roles grant distinct authorities. */
  lemma RoleAuthorityInjective(r1: Role, r2: Role)
    ensures RoleAuthority(r1) == RoleAuthority(r2) <==> r1 == r2
  {
  }

  /** existByEmail */
  function ExistByEmail(accounts: map<Id, Account>, email: string): (b: bool)
    ensures b <==> exists id :: id in accounts && accounts[id].email == email
    ensures !b <==> FindByEmail(accounts, email).NoMatch?
    ensures !b ==> AccountByEmail(accounts, email) == Failure(NotFound("Account not found"))
  {
    ExistsByEmail(accounts, email)
  }

  /** getCurrentAccount: the projection of the account whose email is the caller's name. */
  function GetCurrentAccount(accounts: map<Id, Account>, caller: string): (r: Result<AccountResponse, Error>)
    ensures r.Success? <==> AccountByEmail(accounts, caller).Success?
    ensures r.Failure? ==> r.error == AccountByEmail(accounts, caller).error
    ensures r.Success? ==> r.value.email == caller && r.value.id in accounts && accounts[r.value.id].email == caller
  {
    match AccountByEmail(accounts, caller)
    case Failure(e) => Failure(e)
    case Success(id) => Success(AccountResponse(id, accounts[id].email))
  }

  /**
   * loadUserByUsername: an unknown email raises UsernameNotFoundException;
   * otherwise the stored email, stored hash and the role's authority.
   */
  function LoadUserByUsername(accounts: map<Id, Account>, email: string): (r: Result<UserDetails, Error>)
    ensures r.Success? <==> FindByEmail(accounts, email).Unique?
    ensures FindByEmail(accounts, email).NoMatch? ==> r == Failure(UsernameNotFound(email))
    ensures FindByEmail(accounts, email).Ambiguous? ==> r == Failure(IncorrectResultSize(email))
    ensures r.Success? ==>
      var a := accounts[FindByEmail(accounts, email).id];
      r.value.username == email && r.value.password == a.password && r.value.authorities == {RoleAuthority(a.role)}
  {
    match FindByEmail(accounts, email)
    case NoMatch => Failure(UsernameNotFound(email))
    case Ambiguous => Failure(IncorrectResultSize(email))
    case Unique(id) =>
      var a := accounts[id];
      Success(UserDetails(a.email, a.password, {RoleAuthority(a.role)}))
  }

  /**
   * The login lookup and the /accounts/me lookup agree: both succeed on the
   * same emails and name the same account; they differ only in the
   * exception raised for an unknown email.
   */
  lemma LoginAgreesWithCurrentAccount(accounts: map<Id, Account>, email: string)
    ensures LoadUserByUsername(accounts, email).Success? <==> GetCurrentAccount(accounts, email).Success?
    ensures LoadUserByUsername(accounts, email).Success? ==>
      LoadUserByUsername(accounts, email).value.username == GetCurrentAccount(accounts, email).value.email
    ensures !ExistByEmail(accounts, email) ==>
      LoadUserByUsername(accounts, email) == Failure(UsernameNotFound(email)) &&
      GetCurrentAccount(accounts, email) == Failure(NotFound("Account not found"))
  {
  }

  /** A caller loaded from an account holds ROLE_ADMIN iff that account's role is ADMIN. */
  lemma AdminAuthorityIffAdminRole(accounts: map<Id, Account>, email: string)
    requires LoadUserByUsername(accounts, email).Success?
    ensures "ROLE_ADMIN" in LoadUserByUsername(accounts, email).value.authorities <==>
      accounts[FindByEmail(accounts, email).id].role == ADMIN
  {
  }

  class AccountService {
    const repo: Repositories

    constructor (repo: Repositories)
      ensures this.repo == repo
    {
      this.repo := repo;
    }

    /**
     * create: refuses an email that is already registered; otherwise stores
     * a USER account with the encoder's output `hashed` as its password.
     */
    method Create(dto: AccountCreateDto, hashed: string) returns (r: Result<AccountResponse, Error>)
      requires repo.Valid() && DtoValidation.AccountCreatePasswordValid(dto.password)
      modifies repo
      ensures repo.Valid()
      ensures r.Failure? <==> ExistByEmail(old(repo.accounts), dto.email)
      ensures r.Failure? ==> r.error == AlreadyExists("Account already exists") && unchanged(repo)
      ensures r.Success? ==>
        var id := old(repo.nextAccountId);
        && id !in old(repo.accounts)
        && repo.View() == old(repo.View()).(accounts := old(repo.accounts)[id := NewAccount(dto.email, hashed)])
        && r.value == AccountResponse(id, dto.email)
      ensures r.Success? ==> FindByEmail(repo.accounts, dto.email) == Unique(r.value.id)
      ensures r.Success? ==> repo.accounts[r.value.id].role == USER
    {
      if ExistByEmail(repo.accounts, dto.email) {
        return Failure(AlreadyExists("Account already exists"));
      }
      var saved := repo.SaveNewAccount(NewAccount(dto.email, hashed));
      match saved {
        case Failure(e) =>
          r := Failure(e);
        case Success(id) =>
          assert id in repo.accounts && repo.accounts[id].email == dto.email;
          r := Success(AccountResponse(id, dto.email));
      }
    }

    /**
     * updateAccount: overwrites the caller's email and password with the
     * DTO's values as given, without hashing. The service does not look for
     * a duplicate email; the unique column refuses the save when another
     * account has the new email.
     */
    method UpdateAccount(dto: AccountCreateDto, caller: string) returns (r: Result<AccountResponse, Error>)
      requires repo.Valid() && DtoValidation.AccountCreatePasswordValid(dto.password)
      modifies repo
      ensures repo.Valid()
      ensures r.Failure? <==>
        AccountByEmail(old(repo.accounts), caller).Failure? ||
        EmailTakenByOther(old(repo.accounts), AccountByEmail(old(repo.accounts), caller).value, dto.email)
      ensures r.Failure? ==> unchanged(repo)
      ensures AccountByEmail(old(repo.accounts), caller).Failure? ==>
        r == Failure(AccountByEmail(old(repo.accounts), caller).error)
      ensures AccountByEmail(old(repo.accounts), caller).Success? &&
              EmailTakenByOther(old(repo.accounts), AccountByEmail(old(repo.accounts), caller).value, dto.email) ==>
        r == Failure(DuplicateEmail(dto.email))
      ensures r.Success? ==>
        var id := AccountByEmail(old(repo.accounts), caller).value;
        var updated := old(repo.accounts)[id].(email := dto.email, password := dto.password.value);
        && repo.View() == old(repo.View()).(accounts := old(repo.accounts)[id := updated])
        && r.value == AccountResponse(id, dto.email)
      ensures r.Success? ==> repo.accounts[r.value.id].password == dto.password.value
    {
      var found := AccountByEmail(repo.accounts, caller);
      if found.Failure? {
        return Failure(found.error);
      }
      var id := found.value;
      var updated := repo.accounts[id].(email := dto.email, password := dto.password.value);
      var saved := repo.SaveAccount(id, updated);
      if saved.Fail? {
        return Failure(saved.error);
      }
      r := Success(AccountResponse(id, dto.email));
    }

    /**
     * deleteById: an unknown id is NotFound; the database refuses the
     * delete while an issue refers to the account.
     */
    method DeleteById(id: Id) returns (outcome: Outcome<Error>)
      requires repo.Valid()
      modifies repo
      ensures repo.Valid()
      ensures id !in old(repo.accounts) ==> outcome == Fail(NotFound("Account not found"))
      ensures id in old(repo.accounts) && ReferencedByIssue(old(repo.View()), id) ==>
        outcome == Fail(DataIntegrityViolation(id))
      ensures outcome.Fail? ==> unchanged(repo)
      ensures outcome.Pass? <==> id in old(repo.accounts) && !ReferencedByIssue(old(repo.View()), id)
      ensures outcome.Pass? ==> repo.View() == RemoveAccount(old(repo.View()), id)
    {
      if id !in repo.accounts {
        return Fail(NotFound("Account not found"));
      }
      outcome := repo.DeleteAccount(id);
    }

    /** delete: deleteById applied to the caller's own account. */
    method Delete(caller: string) returns (outcome: Outcome<Error>)
      requires repo.Valid()
      modifies repo
      ensures repo.Valid()
      ensures AccountByEmail(old(repo.accounts), caller).Failure? ==>
        outcome == Fail(AccountByEmail(old(repo.accounts), caller).error)
      ensures AccountByEmail(old(repo.accounts), caller).Success? &&
              ReferencedByIssue(old(repo.View()), AccountByEmail(old(repo.accounts), caller).value) ==>
        outcome == Fail(DataIntegrityViolation(AccountByEmail(old(repo.accounts), caller).value))
      ensures outcome.Fail? ==> unchanged(repo)
      ensures outcome.Pass? <==>
        AccountByEmail(old(repo.accounts), caller).Success? &&
        !ReferencedByIssue(old(repo.View()), AccountByEmail(old(repo.accounts), caller).value)
      ensures outcome.Pass? ==>
        var id := AccountByEmail(old(repo.accounts), caller).value;
        repo.View() == RemoveAccount(old(repo.View()), id) && !ExistByEmail(repo.accounts, caller)
    {
      var found := AccountByEmail(repo.accounts, caller);
      if found.Failure? {
        return Fail(found.error);
      }
      outcome := repo.DeleteAccount(found.value);
    }
  }
}
