# task-manager-api: issue, comment and account policy in Dafny

This project models the policy and state-update layer of the task-manager
REST API: accounts register and log in, administrators create issues and
assign them, assignees edit issues and comment on them, and authors delete
what they wrote. Persistence, hashing and HTTP are stripped away. The three
JPA repositories are one in-memory store: maps from id to `Account`, `Issue`
and `Comment` records, with one id counter per table.

| file | module | what it holds |
|---|---|---|
| `wrappers.dfy` | `Wrappers` | `Option` for nullable Java fields, `Result`/`Outcome` for thrown exceptions |
| `entities.dfy` | `Entities` | `Account`, `Issue`, `Comment`, `Role`, `Status`, `Priority`, field defaults, the exceptions |
| `dto_validation.dfy` | `DtoValidation` | `@NotBlank`, and the password `@Pattern` held as data with its `java.util.regex` meaning |
| `repositories.dfy` | `Repositories` | the store as a value `Db` with its integrity invariant, the derived queries, the cascades, and the class `Repositories` that owns the tables |
| `issue_mapper.dfy` | `IssueMapper` | `toIssue`, `updateIssue` (full overwrite), `patchIssue` (null-ignoring merge), `toAccount`, the response projections |
| `issue_service.dfy` | `IssueService` | the ownership predicates and lookups as functions; issue and comment operations as methods of the class `IssueService` |
| `account_service.dfy` | `AccountService` | lookups by identity and the credential lookup as functions; registration, self update/delete and delete-by-id as methods |
| `issue_controller.dfy` | `IssueController` | every `@PreAuthorize` guard as one predicate `Authorize`, and the controller that validates, authorizes and then calls the service |

Conventions:

- Ids are the keys of the maps; a record does not repeat its own id.
- A Java reference that may be null is an `Option`.
- A thrown exception is a `Failure`/`Fail` carrying an `Error` with the exception's message.
  `EntityNotFoundException` and the project's own `NotFoundException` are both `NotFound`.
- The store invariant `Db.Valid()` is what the database enforces:
  - no two accounts share an email (a unique email column);
  - every issue has a title and an author;
  - every comment has an author and an issue;
  - every reference points at a stored row.
- Each service method is one transaction: when it fails, the store is unchanged.

Behaviour of the code that a reader of the API documentation may not expect (the model follows the code):

- `updateAccount` stores the DTO's password as given, without hashing it. MapStruct's `updateAccount` copies both properties.
- `updateAccount` does not check the new email for duplicates itself. Moving to an email another account has is refused only by the unique email column, when the save is committed. The caller then gets a data-integrity error (`DuplicateEmail` here), not the "Account already exists" that registration gives.
- `updateIssue` copies nulls. A PUT without a description clears the description, and a PUT without a status stores a null status.
- `createIssue` maps the DTO onto a new `Issue` with the same null-copying strategy. A request without a status or priority therefore stores null, not `BACKLOG`/`NO_PRIORITY`.
- `updateIssue` and `patchIssue` never change the assignee. Only `toIssue` resolves `idAssignee`.
- The comment guards check the comment's author only. A comment's author passes the guard of `/issues/{other}/comments/{id}`, and the service's pair lookup then answers "Comment not found".
- Listing the comments of an unknown issue gives an empty page, not an error.
- Request bodies are validated before the guard runs. An invalid body gets 400 even from a caller the guard would refuse.

## Model

| member | source | states |
|---|---|---|
| Entities.NewIssue | src/main/java/by/tms/taskmanagerapi/entity/Issue.java:38-42 | a new issue has status BACKLOG and priority NO_PRIORITY, and no title, author or assignee yet |
| Entities.NewAccount | src/test/java/by/tms/taskmanagerapi/service/AccountServiceTest.java:72 | a new account has role USER and the given email and password |
| DtoValidation.NotBlank | src/main/java/by/tms/taskmanagerapi/dto/account/AccountCreateDto.java:21 | @NotBlank: the value is non-null and has a character above U+0020 (Hibernate trims before measuring) |
| DtoValidation.Matches | src/main/java/by/tms/taskmanagerapi/dto/account/AccountCreateDto.java:22 | @Pattern under Matcher.matches(): each lookahead finds a character of its class before any line terminator, and the whole input is at least the minimum length of body-class characters |
| DtoValidation.ClassMeanings | src/main/java/by/tms/taskmanagerapi/dto/account/AccountCreateDto.java:22 | each bracketed class of the password pattern holds exactly the characters its name says (A–Z, a–z, 0–9, @$!%*?&) |
| DtoValidation.AlphabetHasNoLineTerminator | src/main/java/by/tms/taskmanagerapi/dto/account/AccountCreateDto.java:22 | no character the body class admits is a line terminator |
| DtoValidation.DotStarThenAnywhere | src/main/java/by/tms/taskmanagerapi/dto/account/AccountCreateDto.java:22 | on a line-terminator-free input, the lookahead (?=.*C) holds iff some character is in C |
| DtoValidation.DotStarThenStopsAtLineEnd | src/main/java/by/tms/taskmanagerapi/dto/account/AccountCreateDto.java:22 | a lookahead (?=.*C) fails when a line terminator comes before the first character in C |
| DtoValidation.PatternAsClasses | src/main/java/by/tms/taskmanagerapi/dto/account/AccountCreateDto.java:22 | the pattern matches iff the input has at least 8 characters, all in the body class, with one character from each of the four lookahead classes |
| DtoValidation.AllInAlphabetMeaning | src/main/java/by/tms/taskmanagerapi/dto/account/AccountCreateDto.java:22 | every character is in the body class iff every character is a letter, a digit or one of @$!%*?& |
| DtoValidation.SomeInClassMeaning | src/main/java/by/tms/taskmanagerapi/dto/account/AccountCreateDto.java:22 | each lookahead class occurs in the input iff an uppercase letter, lowercase letter, digit or special character occurs |
| DtoValidation.PasswordPatternCharacterised | src/main/java/by/tms/taskmanagerapi/dto/account/AccountCreateDto.java:22 | the regular expression matches iff the plain policy holds: length at least 8, allowed characters only, and one character from each of the four classes |
| DtoValidation.LoginPatternIsRegistrationPattern | src/main/java/by/tms/taskmanagerapi/dto/AuthRequestDto.java:24 | the login pattern, written out separately, is the registration pattern |
| DtoValidation.LoginIffRegistration | src/main/java/by/tms/taskmanagerapi/dto/AuthRequestDto.java:23-24 | a password is valid for login iff it is valid for registration |
| DtoValidation.AcceptedPassword | src/main/java/by/tms/taskmanagerapi/dto/account/AccountCreateDto.java:21-22 | an accepted password is non-null and satisfies the plain policy |
| DtoValidation.PolicyPasswordAccepted | src/main/java/by/tms/taskmanagerapi/dto/account/AccountCreateDto.java:21-22 | every string that satisfies the plain policy is accepted (the converse direction) |
| DtoValidation.BlankPasswordRejected | src/main/java/by/tms/taskmanagerapi/dto/AuthRequestDto.java:23 | a null or blank password is rejected on both DTOs |
| DtoValidation.ForeignCharacterRejected | src/main/java/by/tms/taskmanagerapi/dto/AuthRequestDto.java:24 | a password with any character outside A–Z, a–z, 0–9 and @$!%*?& is rejected on both DTOs |
| DtoValidation.LineBreakDefeatsLookahead | src/main/java/by/tms/taskmanagerapi/dto/account/AccountCreateDto.java:22 | the uppercase lookahead does not see past a leading line break |
| DtoValidation.ExamplePasswordAccepted | src/main/java/by/tms/taskmanagerapi/dto/account/AccountCreateDto.java:25 | the documented example "Password123!" is accepted on both DTOs |
| Repositories.FindByEmail | src/main/java/by/tms/taskmanagerapi/repository/AccountRepository.java:11 | no match iff no account has the email; a unique match is the only account with it; ambiguous iff two distinct accounts have it |
| Repositories.UniqueEmailsNeverAmbiguous | src/main/java/by/tms/taskmanagerapi/repository/AccountRepository.java:11 | under the unique email column findByEmail never matches several accounts, and the caller resolves iff some account has the email |
| Repositories.AccountByEmail | src/main/java/by/tms/taskmanagerapi/service/AccountService.java:48 | succeeds iff exactly one account has the email and yields that account; otherwise "Account not found" or an incorrect-result-size failure |
| Repositories.RemoveIssue | src/main/java/by/tms/taskmanagerapi/entity/Issue.java:44-45 | removes the issue and exactly the comments attached to it, keeps every other row unchanged, and preserves the store invariant |
| Repositories.RemoveAccount | src/main/java/by/tms/taskmanagerapi/entity/Comment.java:26-29 | removes the account and exactly the comments it wrote, keeps issues and other rows unchanged, and preserves the store invariant |
| Repositories.Repositories.SaveNewAccount | src/main/java/by/tms/taskmanagerapi/service/AccountService.java:39 | refused with a duplicate-email error, changing nothing, iff the email is taken; otherwise the account is stored under a fresh id and only the account table and its counter change |
| Repositories.Repositories.SaveAccount | src/main/java/by/tms/taskmanagerapi/service/AccountService.java:59 | refused with a duplicate-email error, changing nothing, iff another account has the new email; otherwise overwrites that one account |
| Repositories.Repositories.SaveNewIssue | src/main/java/by/tms/taskmanagerapi/entity/Issue.java:21-23 | a storable issue gets a fresh generated id; nothing else changes; the invariant is kept |
| Repositories.Repositories.SaveIssue | src/main/java/by/tms/taskmanagerapi/entity/Issue.java:25-36 | overwrites one issue with one that still has its title and author; the invariant is kept |
| Repositories.Repositories.SaveNewComment | src/main/java/by/tms/taskmanagerapi/entity/Comment.java:20-22 | a storable comment gets a fresh generated id; nothing else changes |
| Repositories.Repositories.SaveComment | src/main/java/by/tms/taskmanagerapi/entity/Comment.java:26-33 | overwrites one comment with one that still has its author and issue |
| Repositories.Repositories.DeleteIssue | src/main/java/by/tms/taskmanagerapi/entity/Issue.java:44-45 | the new state is the old one with the issue removed and its comments cascaded |
| Repositories.Repositories.DeleteComment | src/main/java/by/tms/taskmanagerapi/repository/CommentRepository.java:15 | removes exactly that comment |
| Repositories.Repositories.DeleteAccount | src/main/java/by/tms/taskmanagerapi/entity/Comment.java:28 | fails with a data-integrity violation, changing nothing, iff an issue names the account as author or assignee; otherwise removes it and the comments it wrote |
| IssueMapper.ToAccount | src/main/java/by/tms/taskmanagerapi/mapper/IssueMapper.java:24-29 | a null id maps to null; an id maps to itself iff an account has it, else "Assigned user not exist" |
| IssueMapper.UpdateIssue | src/main/java/by/tms/taskmanagerapi/mapper/IssueMapper.java:18-19 | title, description, status and priority become the DTO's, nulls included; author and assignee are kept |
| IssueMapper.PatchIssue | src/main/java/by/tms/taskmanagerapi/mapper/IssueMapper.java:21-22 | each field takes the DTO's value where it is non-null and keeps its own otherwise; author and assignee are kept |
| IssueMapper.ToIssue | src/main/java/by/tms/taskmanagerapi/mapper/IssueMapper.java:14-15 | fails iff the DTO names an unknown assignee; otherwise a new issue overwritten by the DTO, with the assignee resolved and no author |
| IssueMapper.ToAccountResponse | src/main/java/by/tms/taskmanagerapi/dto/account/AccountResponseDto.java:8-11 | an account reference becomes its id and email only |
| IssueMapper.ToIssueResponse | src/main/java/by/tms/taskmanagerapi/mapper/IssueMapper.java:16 | the response carries the issue's fields, with author and assignee as id/email projections |
| IssueMapper.UpdateIdempotent | src/main/java/by/tms/taskmanagerapi/mapper/IssueMapper.java:18-19 | updating twice with one DTO equals updating once |
| IssueMapper.PatchIdempotent | src/main/java/by/tms/taskmanagerapi/mapper/IssueMapper.java:21-22 | patching twice with one DTO equals patching once |
| IssueMapper.PatchEmptyIsIdentity | src/main/java/by/tms/taskmanagerapi/mapper/IssueMapper.java:21-22 | a patch with an all-null DTO is the identity |
| IssueMapper.PatchOfCompleteDtoIsUpdate | src/main/java/by/tms/taskmanagerapi/mapper/IssueMapper.java:18-22 | on a DTO without nulls, patch and update agree |
| IssueMapper.UpdateForgetsCarriedFields | src/main/java/by/tms/taskmanagerapi/mapper/IssueMapper.java:18-19 | the result of an update depends on the target only through author and assignee |
| IssueMapper.MergesKeepOwnership | src/main/java/by/tms/taskmanagerapi/mapper/IssueMapper.java:14-22 | neither update nor patch changes author or assignee, whatever idAssignee says |
| IssueMapper.TitleOnlyDto | src/test/java/by/tms/taskmanagerapi/service/IssueServiceTest.java:260-262 | a title-only update clears the description, a title-only patch keeps it, and both set the title |
| IssueMapper.PatchesCompose | src/main/java/by/tms/taskmanagerapi/mapper/IssueMapper.java:21-22 | two patches equal one patch with the second DTO laid over the first |
| IssueMapper.ToIssueOverwritesDefaults | src/main/java/by/tms/taskmanagerapi/mapper/IssueMapper.java:14-15 | the created issue's status and priority are the DTO's; a DTO without a status yields a null status, not BACKLOG |
| IssueMapper.ResponseIgnoresPasswords | src/main/java/by/tms/taskmanagerapi/dto/account/AccountResponseDto.java:8-11 | the issue response does not depend on stored passwords |
| IssueService.ToCommentResponse | src/main/java/by/tms/taskmanagerapi/mapper/CommentMapper.java:10 | the comment response carries id, content and the author's id/email projection |
| IssueService.GetIssueById | src/main/java/by/tms/taskmanagerapi/service/IssueService.java:68-71 | fails "Issue not found" iff the id is absent; otherwise the issue's response |
| IssueService.GetCommentsPage | src/main/java/by/tms/taskmanagerapi/service/IssueService.java:105-107 | min(size, number of the issue's comments) distinct comments, each belonging to the issue; empty for an unknown issue |
| IssueService.NoCommentsOfUnknownIssue | src/main/java/by/tms/taskmanagerapi/entity/Comment.java:31-33 | in a consistent store an unknown issue has no comments |
| IssueService.IsUserAssignedToIssue | src/main/java/by/tms/taskmanagerapi/service/IssueService.java:56-58 | the issue exists and its assignee is a stored account whose email is the caller's name |
| IssueService.IsAuthorIssue | src/main/java/by/tms/taskmanagerapi/service/IssueService.java:60-62 | the issue exists and its author is a stored account whose email is the caller's name |
| IssueService.IsAuthorComment | src/main/java/by/tms/taskmanagerapi/service/IssueService.java:64-66 | the comment exists and its author is a stored account whose email is the caller's name |
| IssueService.AuthorCommentOnValidStore | src/main/java/by/tms/taskmanagerapi/service/IssueService.java:64-66 | isAuthorComment is false for an unknown comment; in a consistent store, on an existing comment it compares the author's email with the caller's name |
| IssueService.NotAssignedWithoutAssignee | src/main/java/by/tms/taskmanagerapi/service/IssueService.java:56-58 | isUserAssignedToIssue is false for an unknown or unassigned issue |
| IssueService.AuthorIssueMatchesResponse | src/main/java/by/tms/taskmanagerapi/service/IssueService.java:60-62 | isAuthorIssue holds iff the issue exists and its response shows the caller's email as author |
| IssueService.AssigneeMatchesResponse | src/main/java/by/tms/taskmanagerapi/service/IssueService.java:56-58 | isUserAssignedToIssue holds iff the issue exists and its response shows the caller's email as assignee |
| IssueService.AuthorIssueOnValidStore | src/main/java/by/tms/taskmanagerapi/service/IssueService.java:60-62 | in a consistent store, isAuthorIssue on an existing issue compares the author's email with the caller's name |
| IssueService.CommentsOfInsert | src/main/java/by/tms/taskmanagerapi/service/IssueService.java:97-101 | a new comment under a fresh id grows its issue's comment set by exactly that id |
| IssueService.IssueService.CreateIssue | src/main/java/by/tms/taskmanagerapi/service/IssueService.java:48-54 | fails first on an unknown assignee, then on an unresolvable caller, changing nothing; otherwise adds exactly one issue, authored by the caller's account, under a fresh id |
| IssueService.IssueService.UpdateIssue | src/main/java/by/tms/taskmanagerapi/service/IssueService.java:77-81 | fails "Issue not found", changing nothing, iff the id is absent; otherwise only that issue changes, to the full-overwrite merge |
| IssueService.IssueService.PatchIssue | src/main/java/by/tms/taskmanagerapi/service/IssueService.java:88-92 | fails "Issue not found", changing nothing, iff the id is absent; otherwise only that issue changes, to the null-ignoring merge |
| IssueService.IssueService.DeleteIssueById | src/main/java/by/tms/taskmanagerapi/service/IssueService.java:83-86 | fails "Issue not found" iff the id is absent; otherwise removes the issue and its comments and nothing else |
| IssueService.IssueService.AddComment | src/main/java/by/tms/taskmanagerapi/service/IssueService.java:94-103 | fails on the caller's account first, then on the issue, changing nothing; otherwise adds one comment with the content, the caller as author and the issue as parent, and the issue's comment count grows by one |
| IssueService.IssueService.PatchComment | src/main/java/by/tms/taskmanagerapi/service/IssueService.java:109-114 | fails "Comment not found" unless the comment belongs to the issue; otherwise only that comment's content changes |
| IssueService.IssueService.DeleteComment | src/main/java/by/tms/taskmanagerapi/service/IssueService.java:116-121 | fails "Comment not found" unless the comment belongs to the issue; otherwise removes exactly that comment |
| AccountService.RoleAuthority | src/main/java/by/tms/taskmanagerapi/service/AccountService.java:80 | a role grants the authority ROLE_ followed by its name |
| AccountService.RoleAuthorityInjective | src/main/java/by/tms/taskmanagerapi/service/AccountService.java:80 | distinct roles grant distinct authorities |
| AccountService.ExistByEmail | src/main/java/by/tms/taskmanagerapi/service/AccountService.java:43-45 | true iff some account has the email, i.e. iff the email lookup finds something |
| AccountService.GetCurrentAccount | src/main/java/by/tms/taskmanagerapi/service/AccountService.java:47-50 | succeeds iff the caller's email resolves to one account, and returns that account's id with the caller's email |
| AccountService.LoadUserByUsername | src/main/java/by/tms/taskmanagerapi/service/AccountService.java:73-84 | fails with UsernameNotFound for an unknown email; otherwise username is the email, password the stored hash, authorities the role's |
| AccountService.LoginAgreesWithCurrentAccount | src/main/java/by/tms/taskmanagerapi/service/AccountService.java:47-50 | the login lookup and the current-account lookup succeed on the same emails and name the same account |
| AccountService.AdminAuthorityIffAdminRole | src/test/java/by/tms/taskmanagerapi/service/AccountServiceTest.java:151 | a loaded user holds ROLE_ADMIN iff the stored account's role is ADMIN |
| AccountService.AccountService.Create | src/main/java/by/tms/taskmanagerapi/service/AccountService.java:34-41 | fails "Account already exists", changing nothing, iff the email is taken; otherwise stores a USER account with the encoded password under a fresh id, and afterwards the email resolves uniquely to it |
| AccountService.AccountService.UpdateAccount | src/main/java/by/tms/taskmanagerapi/service/AccountService.java:56-61 | fails when the caller does not resolve, then when another account has the new email (the unique column), changing nothing; otherwise overwrites the caller's email and password with the DTO's values verbatim, the password unhashed |
| AccountService.AccountService.DeleteById | src/main/java/by/tms/taskmanagerapi/service/AccountService.java:63-66 | fails "Account not found" for an unknown id and a data-integrity violation while an issue refers to it, changing nothing; otherwise removes that account and its comments |
| AccountService.AccountService.Delete | src/main/java/by/tms/taskmanagerapi/service/AccountService.java:68-71 | fails with the lookup's error when the caller does not resolve, and with a data-integrity violation while an issue refers to the caller's account, changing nothing; otherwise removes that account and its comments, and afterwards no account has the caller's email |
| IssueController.HasRole | src/main/java/by/tms/taskmanagerapi/controller/IssueController.java:36 | hasRole('X'): the caller holds the authority ROLE_X |
| IssueController.Authorize | src/main/java/by/tms/taskmanagerapi/controller/IssueController.java:36-167 | the @PreAuthorize expression of each endpoint: ADMIN only for create/list issues and account delete-by-id; ADMIN or assignee for get/put/patch of an issue and add/list of its comments; the comment's author for comment patch/delete; the issue's author for issue delete |
| IssueController.BodyValid | src/main/java/by/tms/taskmanagerapi/controller/IssueController.java:42-148 | @Valid on the body: a non-blank title for issue create/put/patch, non-blank content for comment add/patch |
| IssueController.CallerOf | src/main/java/by/tms/taskmanagerapi/service/AccountService.java:77-81 | the principal carries the loaded username and authorities |
| IssueController.AuthorGuardsIgnoreRoles | src/main/java/by/tms/taskmanagerapi/controller/IssueController.java:137-167 | the guards of issue delete and comment patch/delete depend on the caller's name only |
| IssueController.AdminNotEnough | src/main/java/by/tms/taskmanagerapi/controller/IssueController.java:167 | an administrator who is not the author is refused exactly the issue delete and the comment patch/delete |
| IssueController.AssigneeCannotDelete | src/main/java/by/tms/taskmanagerapi/controller/IssueController.java:74-104 | an assignee who is not the author may edit and comment on the issue but not delete it |
| IssueController.CommentGuardIgnoresIssue | src/main/java/by/tms/taskmanagerapi/controller/IssueController.java:137 | the comment guards give the same answer whatever the issue id in the path |
| IssueController.NonAdminAuthorizationNeedsEntity | src/main/java/by/tms/taskmanagerapi/controller/IssueController.java:48 | a non-administrator passes a guard only on an existing issue or comment, and never an ADMIN-only one |
| IssueController.AdminEndpointsFollowStoredRole | src/main/java/by/tms/taskmanagerapi/controller/IssueController.java:36 | a logged-in caller may create issues iff the stored account's role is ADMIN |
| IssueController.CommentGuardPassesForForeignIssue | src/main/java/by/tms/taskmanagerapi/controller/IssueController.java:137-149 | a comment's author passes the guard under another issue's path, while an administrator is refused |
| IssueController.IssueController.Handle | src/main/java/by/tms/taskmanagerapi/controller/IssueController.java:42-177 | invalid bodies get BadRequest and refused requests get Forbidden, both with the store unchanged; an authorized issue delete always succeeds; an authorized comment edit fails only on the pair lookup |

## Left out

- Hashing: BCrypt (strength 11) is outside the model. `AccountService.AccountService.Create` receives the encoder's output as the parameter `hashed`.
- AccountService.AccountService.Create: does not state that the stored password differs from the raw one, because that is a property of BCrypt.
- JWT issuance, the AuthenticationManager and the security filter chain are not modelled. Every caller is an authenticated principal.
- HTTP status mapping, response entities and the Swagger annotations are left out. Errors are returned as `Error` values.
- The `@Email` format check is Hibernate Validator internals. Emails are arbitrary strings.
- Timestamps (`createdAt`, `updatedAt`) and the sort by `createdAt` depend on the clock. They are not modelled.
- IssueService.GetCommentsPage: returns some `size` comments of the issue, in no particular order. It does not model the page index or the sort by `createdAt`.
- `getIssuePage` and `getAccounts` are a plain `findAll` and are not modelled. `ListIssues` appears only in the policy predicate.
- `AccountController` is not modelled beyond the ADMIN guard on delete-by-id (`DeleteAccountById` in the policy predicate).
- Account.java is not part of this model. Its fields and the USER default come from the tests and the mappers. Two facts about its schema are assumptions:
- AccountService.AccountService.UpdateAccount: assumes the email column is unique, as the design of the system describes, so an update to a taken email fails. Without that constraint the update would succeed, and later lookups of that email would fail with `IncorrectResultSize`.
- Repositories.Repositories.DeleteAccount: assumes `Account` declares no cascade to the issues it authored or is assigned, so deleting such an account is refused by the foreign keys of Issue.java:30-36. If `Account` cascades to its issues, the issues and their comments would go with it instead. The test teardown that deletes every account while issues exist points that way.
- AccountService.AccountService.DeleteById and AccountService.AccountService.Delete: rest on the same assumption about deleting an account that an issue refers to.
- A null email in `AccountCreateDto` is not modelled. The email is a plain string.
- JPA dirty checking and the transaction boundary are modelled as one atomic update per service call.
