# Furia Know Your Fan — a verified model of the points ledger and its call sites

Furia Know Your Fan is a fan-profile site. A NestJS backend stores users, their uploaded identity
documents and a points ledger. A Next.js frontend shows a settings page, a points history page, a
login and sign-up form and a profile card. Fans earn points once per action: completing the profile,
validating a document, linking a social account, validating an e-sports profile. They spend points on
rewards.

This project models that core in Dafny and proves what it promises:

- **Store** (`store.dfy`): the `user`, `pointHistory` and `document` tables as sequences. `State` is a
  value snapshot and `Database` a class whose methods change it in place. Each store operation is a
  `…Step` function from a state to the next state and a result, and the matching `Database` method is
  proved to agree with it.
- **Points ledger** (`points.dfy`): awards are paid at most once per exact `(user, action)` tag. The
  balance a reader sees is the sum of the user's entries. A redemption is a guarded debit with no
  deduplication that leaves the stored counter alone, so the counter drifts away from the balance.
- **Award call sites**: the user service (`user_service.dfy`), the `users` controller
  (`users_controller.dfy`), the document service and controller (`document_service.dfy`,
  `document_controller.dfy`) and the e-sports check (`esports_service.dfy`). Each service method is
  a `Database` method tied to a `…Step` function, and the lemmas state which tag gets paid and when.
- **Pure rules**:
  - the terms-of-service gate (`terms_middleware.dfy`);
  - Node's `path.extname` (`paths.dfy`);
  - the document extension and size guards and the camel-case cleanup of extracted text;
  - the e-sports verdict, which is proved to be always true;
  - the CPF check-digit rule, the settings payload, the social-account filter and the save-button
    rule (`settings_page.dfy`);
  - the action labels, the redeem-button rule and the re-entrance flags of the points page
    (`points_history_page.dfy`);
  - the sign-up checks (`auth_form.dfy`);
  - the profile card's account list (`user_profile_card.dfy`).
- **Helpers**: `wrappers.dfy` holds `Option`, `Result` and the error kinds the backend throws.
  `text.dfy` holds the string helpers the code calls (`toLowerCase`, `includes`, the digit class).

Foreign calls are parameters:

- the OpenAI reply: `Ok(Some(content))`, `Ok(None)` or `Err(e)`;
- the OAuth provider's profile;
- bcrypt's comparison, a `(plain, hash) -> bool` function, and the stored hash;
- JWT signing, a `(id, email) -> token` function;
- the login action's and the registration request's outcomes;
- the `/users/me` response;
- the session cookie.

Users are numbered by creation, so a user's id is its position in the `user` table. The clock that
stamps `createdAt` is a counter in the state.

## Model

| member | source | states |
|---|---|---|
| Store.Apply | furia-backend/src/users/user.service.ts:77-80 | A Prisma update writes each key it names: a value sets the column, null clears it. Every other column keeps its value. |
| Store.UserWithEmail | furia-backend/src/users/user.service.ts:234-238 | The unique-email lookup. It returns a position holding that email, or none when no user has it. |
| Store.FirstDocument | furia-backend/src/document/document.service.ts:179-183 | `findFirst({id, userId})`. It returns a document with both that id and that owner, or none when no document has both. |
| Store.WithoutDocument | furia-backend/src/document/document.service.ts:199-201 | `document.delete({id})` leaves exactly the documents with another id. |
| Store.Database.FindFirstEntry | furia-backend/src/points/points.service.ts:12-20 | The history scan finds an entry iff one carries exactly this user and tag, and what it finds carries both. |
| Store.Database.FindFirstDocumentOfType | furia-backend/src/document/document.service.ts:118-120 | The document scan finds a document iff the user has one of exactly this type. |
| Store.Database.FindDocument | furia-backend/src/document/document.service.ts:180-182 | The loop returns what `FirstDocument` specifies. |
| Store.Database.UpdateFields | furia-backend/src/users/user.service.ts:77-80 | A column the table lacks is refused. So is a null for name, email or password, a missing user, and an email another user already has. Otherwise only that user's row changes: name, email and password take a given value, and the nullable columns are patched. |
| Store.UpdateFieldsOutcome | furia-backend/src/users/user.service.ts:77-80 | An update succeeds exactly when the store accepts it. Then only the user's row becomes the written record; otherwise nothing changes. |
| Store.WriteEffect | furia-backend/src/users/user.service.ts:77-80 | A written record keeps its id, counter and terms flag. A given name, email or password replaces the old one. Each nullable column named is set or cleared, and every column not named keeps its value. |
| Store.UpdateFieldsKeepsWellFormed | furia-backend/src/users/user.service.ts:77-80 | Any update keeps a well-formed store well formed, unique emails included, and leaves the ledger and the documents unchanged. |
| Store.Database.IncrementPoints | furia-backend/src/points/points.service.ts:35-42 | The stored counter rises by `delta` for that user only. A missing user is refused. |
| Store.Database.SetTerms | furia-backend/src/users/user.service.ts:219-224 | Only that user's terms flag is set. A missing user is refused. |
| Store.Database.InsertUser | furia-backend/src/users/user.service.ts:38-47 | A used email is refused. Otherwise one user is appended with 0 points and no optional column. |
| Store.Database.InsertEntry | furia-backend/src/points/points.service.ts:44-50 | One entry stamped with the clock is appended. An unknown user is refused. |
| Store.Database.InsertDocument | furia-backend/src/document/document.service.ts:163-165 | One document with a fresh id is appended. An unknown user is refused. |
| Store.Database.DeleteDocumentRow | furia-backend/src/document/document.service.ts:199-201 | The row with that id goes. A missing id is refused and nothing changes. |
| PointsService.EntriesOf | furia-backend/src/points/points.service.ts:58-66 | The user's entries are exactly the history entries carrying that user id. |
| PointsService.Reverse | furia-backend/src/points/points.service.ts:63 | Newest first: the same entries, in reverse order. |
| PointsService.HasActionBeenPerformed | furia-backend/src/points/points.service.ts:8-22 | True iff some entry has exactly this user id and this action. It changes nothing. |
| PointsService.AddPoints | furia-backend/src/points/points.service.ts:24-56 | The new store and the result are those of `AddPointsStep`: a no-op for a paid tag, else counter increment then entry append. |
| PointsService.GetUserPoints | furia-backend/src/points/points.service.ts:58-77 | `{0, []}` for a missing user. Otherwise the total is the sum of the user's entries and the history is exactly those entries. The stored counter is not read. |
| PointsService.RedeemPoints | furia-backend/src/points/points.service.ts:79-95 | The new store and the result are those of `RedeemPointsStep`: refuse when uncovered, else append one debit. |
| PointsService.SumReverse | furia-backend/src/points/points.service.ts:68-71 | Summing newest first gives the same total. |
| PointsService.BalanceAppend | furia-backend/src/points/points.service.ts:44-50 | Appending an entry moves only its owner's balance, by its amount. |
| PointsService.AwardPaidAtMostOnce | furia-backend/src/points/points.service.ts:29-33 | Under the ledger invariant, every tag that is not a redemption has at most one entry per user. |
| PointsService.AddPointsDuplicate | furia-backend/src/points/points.service.ts:29-33 | A paid tag returns null and leaves the store unchanged. |
| PointsService.AddPointsMissingUser | furia-backend/src/points/points.service.ts:35-42 | An unpaid tag for a missing user fails at the counter update and writes nothing. |
| PointsService.AddPointsFresh | furia-backend/src/points/points.service.ts:35-55 | An unpaid tag raises the counter by exactly `points` and appends exactly one entry. Nothing else changes, and the updated user is returned. The balance rises by `points` and the tag's count becomes 1. |
| PointsService.AddPointsIdempotent | furia-backend/src/points/points.service.ts:24-56 | Two sequential awards of one tag leave one entry and raise the balance once. |
| PointsService.AddPointsKeepsValid | furia-backend/src/points/points.service.ts:24-56 | An award keeps the store well formed and every award tag unique. |
| PointsService.CounterNeverRead | furia-backend/src/points/points.service.ts:68-75 | Overwriting the stored counter changes nothing `getUserPoints` reports. |
| PointsService.GetUserPointsNewestFirst | furia-backend/src/points/points.service.ts:63 | The history returned is ordered newest first. |
| PointsService.RedeemInsufficient | furia-backend/src/points/points.service.ts:80-84 | An uncovered redemption throws 'Pontos insuficientes para resgate' and appends nothing. |
| PointsService.RedeemCovered | furia-backend/src/points/points.service.ts:86-94 | A covered redemption appends one `-points` entry tagged `REDEMPTION_<id>` and leaves the users alone. The new balance is the old one minus the cost, and never negative. |
| PointsService.RedeemRepeatable | furia-backend/src/points/points.service.ts:86-92 | No deduplication: the same reward is redeemed twice while covered, giving two entries with its tag. |
| PointsService.RedeemCounterDrift | furia-backend/src/points/points.service.ts:86-92 | A non-zero redemption leaves a counter that equalled the balance different from it. |
| PointsService.RedeemKeepsValid | furia-backend/src/points/points.service.ts:79-95 | A redemption keeps the store well formed and the award tags unique. |
| UserService.CreateUser | furia-backend/src/users/user.service.ts:25-52 | The new store and the result are those of `CreateUserStep`. |
| UserService.CreateUserConflict | furia-backend/src/users/user.service.ts:28-33 | A used email gives Conflict 'Email já está em uso' and creates nothing. |
| UserService.CreateUserFresh | furia-backend/src/users/user.service.ts:37-47 | A new email appends exactly one user and returns its record without the password. |
| UserService.CreateUserKeepsValid | furia-backend/src/users/user.service.ts:25-52 | Registration keeps the store well formed and the award tags unique. |
| UserService.Login | furia-backend/src/users/user.service.ts:54-74 | Every failure is the same Unauthorized 'E-mail ou senha incorretos'. A success means a stored email whose hash the password matches. |
| UserService.LoginSucceedsIff | furia-backend/src/users/user.service.ts:55-63 | With unique emails, login succeeds iff the email is stored and the password matches its hash. |
| UserService.LoginAfterCreateUser | furia-backend/src/users/user.service.ts:25-74 | A freshly registered user logs in with the password whose hash was stored, and the token is signed for the new id. |
| UserService.UpdateUser | furia-backend/src/users/user.service.ts:76-92 | The new store and the result are those of `UpdateUserStep`. The `some` loop computes the profile-field test. |
| UserService.UpdateUserRejected | furia-backend/src/users/user.service.ts:77-80 | An update the store refuses changes nothing and awards nothing. |
| UserService.UpdateUserAward | furia-backend/src/users/user.service.ts:77-89 | An accepted update returns the written record. Address, cpf, interests or activities defined, with the tag unpaid, means paid. Then the user's counter rises by 10 and one PROFILE_UPDATE entry of 10 is appended. Otherwise the ledger and the counter are unchanged. No other user, no document, nothing else changes. |
| UserService.UpdateEventsOnlyAwardsNothing | furia-backend/src/users/user.service.ts:82-89 | Updating only events or purchases awards nothing. |
| UserService.UpdateUserKeepsValid | furia-backend/src/users/user.service.ts:76-92 | A profile update keeps the store well formed and the award tags unique. |
| UserService.GetUserById | furia-backend/src/users/user.service.ts:94-131 | The user's selected columns, or InternalServerError for a missing user: the catch replaces the inner not-found. |
| UserService.LinkSocialAccount | furia-backend/src/users/user.service.ts:133-150 | The new store and the result are those of `LinkSocialAccountStep`. |
| UserService.LinkUnknownColumn | furia-backend/src/users/user.service.ts:134-141 | A provider whose column the table lacks is refused before any award. |
| UserService.LinkSocialAccountEffect | furia-backend/src/users/user.service.ts:133-149 | The users become the old ones with this user's `lower(provider)+"Id"` set to the id and, unless `SOCIAL_LINK_<PROVIDER>` was paid, the counter raised by 10. The ledger gains exactly that one entry if paid. Documents are unchanged. |
| UserService.LinkSocialAccountKeepsValid | furia-backend/src/users/user.service.ts:133-150 | Linking keeps the store well formed and the award tags unique. |
| UserService.UnlinkSocialAccount | furia-backend/src/users/user.service.ts:183-192 | The new store and the result are those of `UnlinkSocialAccountStep`. |
| UserService.UnlinkSocialAccountEffect | furia-backend/src/users/user.service.ts:183-192 | Only the provider's column is cleared. The ledger and the documents are unchanged. |
| UserService.UnlinkSocialAccountKeepsValid | furia-backend/src/users/user.service.ts:183-192 | Unlinking keeps the store well formed and the award tags unique. |
| UserService.RelinkEarnsNothing | furia-backend/src/users/user.service.ts:133-192 | Link, unlink and link again: the new id is stored but the ledger is the one the first link left. |
| UserService.GetSocialAccounts | furia-backend/src/users/user.service.ts:152-181 | NotFound for a missing user. Otherwise the pushes give exactly `LinkedAccounts` of the user's columns. |
| UserService.LinkedFromSound | furia-backend/src/users/user.service.ts:168-180 | Only listed providers with a truthy id appear, each with its stored id. |
| UserService.LinkedFromComplete | furia-backend/src/users/user.service.ts:168-180 | Every listed provider with a truthy id appears. |
| UserService.LinkedFromOrdered | furia-backend/src/users/user.service.ts:168-180 | Over distinct providers, the list follows the providers' order. |
| UserService.LinkedAccountsUnfolded | furia-backend/src/users/user.service.ts:164-180 | The list is the five conditional pushes in the order twitter, instagram, facebook, twitch, discord. |
| UserService.LinkedAccountsListed | furia-backend/src/users/user.service.ts:164-180 | Exactly the providers with a set id, each with its id, in the fixed order, so at most 5. |
| UserService.GetTermsAcceptance | furia-backend/src/users/user.service.ts:194-212 | The user's flag, or InternalServerError for a missing user. |
| UserService.UpdateTermsAcceptance | furia-backend/src/users/user.service.ts:214-232 | The new store and the result are those of `UpdateTermsAcceptanceStep`. |
| UserService.TermsRoundTrip | furia-backend/src/users/user.service.ts:194-232 | Writing the flag and reading it back gives the value written. A missing user gets the write error with nothing changed. |
| UserService.UpdateTermsAcceptanceKeepsValid | furia-backend/src/users/user.service.ts:214-232 | Writing the terms flag keeps the store well formed and the award tags unique. |
| UserService.Create | furia-backend/src/users/user.service.ts:240-249 | The store gains the user `InsertUserStep` creates, with the terms not accepted. |
| UserService.HandleSocialAuth | furia-backend/src/users/user.service.ts:251-303 | The new store and the result are those of `HandleSocialAuthStep`. |
| UserService.SocialAuthUnsupported | furia-backend/src/users/user.service.ts:254-272 | An unsupported provider, matched exactly, is refused before any lookup or write. |
| UserService.AuthProviderColumn | furia-backend/src/users/user.service.ts:254-272 | Every accepted provider is lower case and its column exists. |
| UserService.SocialAuthExistingUser | furia-backend/src/users/user.service.ts:274-302 | A known email reuses that user, creates no user, stores the provider id and signs the token for that user. |
| UserService.SocialAuthNewUser | furia-backend/src/users/user.service.ts:240-302 | An unknown email creates exactly one user with the provider's name and email, the terms not accepted and only the provider's column set. |
| UserService.HandleSocialAuthKeepsValid | furia-backend/src/users/user.service.ts:251-303 | Social sign-in, through a found or a created user, keeps the store well formed and the award tags unique. |
| UsersController.CheckSignificantUpdates | furia-backend/src/users/users.controller.ts:47-80 | The early-return loop returns true iff some checked field is truthy in the update and falsy in the record. |
| UsersController.UncheckedFieldsIrrelevant | furia-backend/src/users/users.controller.ts:51-66 | A field outside the 14-name list never changes the answer, whether it is in the update or in the record. |
| UsersController.NothingNewIsNotSignificant | furia-backend/src/users/users.controller.ts:68-77 | An update that only repeats values the record has, or only clears fields, is not significant. |
| UsersController.Update | furia-backend/src/users/users.controller.ts:36-45 | The new store and the result are those of `UpdateStep`. |
| UsersController.UpdateAlwaysAwards | furia-backend/src/users/users.controller.ts:36-45 | The first accepted update pays 10 under `profile_update`, even an empty one. The user is the written record with the counter raised by 10, and one entry is appended. No other user and no document changes. |
| UsersController.BothProfileAwardsPaid | furia-backend/src/users/users.controller.ts:42 | `profile_update` and PROFILE_UPDATE are distinct tags, so one profile update through each path pays 20. |
| UsersController.UpdateKeepsValid | furia-backend/src/users/users.controller.ts:36-45 | The controller's update keeps the store well formed and the award tags unique. |
| TermsMiddleware.Gate | furia-backend/src/middleware/terms.middleware.ts:13-37 | Next iff the path contains '/users/terms', there is no user, or the user exists and has accepted. 'User not found' iff the user id has no record. |
| TermsMiddleware.GateNeedsNoLookup | furia-backend/src/middleware/terms.middleware.ts:14-21 | Exempt and anonymous requests pass whatever the store holds. |
| TermsMiddleware.TermsRoutesExempt | furia-backend/src/middleware/terms.middleware.ts:14-16 | Every path with '/users/terms' inside passes. |
| TermsMiddleware.AcceptingOpensGate | furia-backend/src/middleware/terms.middleware.ts:32-36 | After accepting through the service, the user passes on every path. |
| TermsMiddleware.WithdrawingClosesGate | furia-backend/src/middleware/terms.middleware.ts:32-34 | After withdrawing, the user is refused 'Terms of service must be accepted' outside the terms routes. |
| Paths.Extname | furia-backend/src/document/document.service.ts:61 | `path.extname`: empty, or a dot followed by no dot and no slash. |
| Paths.ExtnameUnderDirectory | furia-backend/src/document/document.controller.ts:62-69 | A file name joined under a directory keeps its extension. |
| Paths.ExtnameAfterPlainPrefix | furia-backend/src/document/document.controller.ts:64-70 | A plain prefix followed by an extension has exactly that extension. |
| DocumentService.ValidateDocument | furia-backend/src/document/document.service.ts:59-112 | Accepted iff the lower-cased extension is allowed, the size is at most 10·1024·1024 bytes and the model answered. Each guard failure becomes InternalServerError carrying its message. The verdict is "the lower-cased reply contains sim". |
| DocumentService.Verdict | furia-backend/src/document/document.service.ts:104-111 | The verdict from the reply. A failed request is rethrown as InternalServerError carrying its message. |
| DocumentService.ValidateUpperCaseAtLimit | furia-backend/src/document/document.service.ts:61-75 | A `.PDF` file of exactly 10 MB with reply "Sim" is accepted, and one byte more is refused. |
| DocumentService.ValidateGuardsFirst | furia-backend/src/document/document.service.ts:69-105 | A reply without content rejects the document, and an oversized file is refused whatever the reply. |
| DocumentService.DuplicateCheck | furia-backend/src/document/document.service.ts:114-127 | BadRequest iff the user already has a document of exactly that type. |
| DocumentService.CheckDuplicateDocumentType | furia-backend/src/document/document.service.ts:114-127 | The lookup returns what `DuplicateCheck` specifies. |
| DocumentService.SaveDocument | furia-backend/src/document/document.service.ts:160-170 | The new store and the result are those of `SaveDocumentStep`. |
| DocumentService.SaveDuplicate | furia-backend/src/document/document.service.ts:161 | A duplicate type is refused with nothing written. |
| DocumentService.SaveFresh | furia-backend/src/document/document.service.ts:160-169 | A new type appends and returns exactly one document. DOCUMENT_VALIDATION is paid unless already paid. When paid, the owner's counter rises by 10 and one entry is appended. Otherwise users and ledger are unchanged. No other user changes. |
| DocumentService.SaveKeepsOneDocumentPerType | furia-backend/src/document/document.service.ts:160-169 | Saving keeps at most one document per user and type. |
| DocumentService.SaveDocumentKeepsValid | furia-backend/src/document/document.service.ts:160-170 | Saving keeps the store well formed and the award tags unique. |
| DocumentService.DocumentAwardPaidOnce | furia-backend/src/document/document.service.ts:160-169 | Documents of two new types pay the document award once: a balance of +10 and one entry. |
| DocumentService.DocumentsOf | furia-backend/src/document/document.service.ts:172-177 | Exactly the user's documents. |
| DocumentService.ListDocuments | furia-backend/src/document/document.service.ts:172-177 | `listDocuments` returns exactly the user's documents. |
| DocumentService.DocumentsOfOrdered | furia-backend/src/document/document.service.ts:175 | Filtering keeps the creation order. |
| DocumentService.ListDocumentsNewestFirst | furia-backend/src/document/document.service.ts:175 | In a well-formed store the listing is newest first. |
| DocumentService.GetDocument | furia-backend/src/document/document.service.ts:179-183 | A document is returned only with that id and that owner; none iff no such document. |
| DocumentService.DeleteDocument | furia-backend/src/document/document.service.ts:185-202 | The new store and the result are those of `DeleteDocumentStep`. |
| DocumentService.DeleteNotOwned | furia-backend/src/document/document.service.ts:186-192 | A missing or foreign id gives NotFound and removes nothing. |
| DocumentService.DeleteOwned | furia-backend/src/document/document.service.ts:185-202 | An owned id removes exactly the documents with that id and leaves the users and the ledger alone. |
| DocumentService.ReuploadEarnsNothing | furia-backend/src/document/document.service.ts:160-202 | Upload, delete, upload the same type again: accepted, with the ledger the first upload left. |
| DocumentService.DeleteDocumentKeepsValid | furia-backend/src/document/document.service.ts:185-202 | Deleting keeps the store well formed and the award tags unique. |
| DocumentService.DeleteKeepsOneDocumentPerType | furia-backend/src/document/document.service.ts:185-202 | Deleting keeps at most one document per user and type. |
| DocumentService.WithoutDocumentKeepsOneDocumentPerType | furia-backend/src/document/document.service.ts:199-201 | Removing the rows with one id keeps any two remaining documents of distinct user or type. |
| DocumentService.SplitCamelCaseIsSpaced | furia-backend/src/document/document.service.ts:39 | The regex's left-to-right replacement equals a space after every lower-case letter that directly precedes an upper-case one. |
| DocumentService.SpacedHasNoCamelPairs | furia-backend/src/document/document.service.ts:39 | After the cleanup no lower-case letter directly precedes an upper-case one. |
| DocumentService.SpacedFixesNoCamelPairs | furia-backend/src/document/document.service.ts:39 | Text without such a pair is left unchanged. |
| DocumentService.SplitCamelCaseIdempotent | furia-backend/src/document/document.service.ts:39 | Cleaning twice equals cleaning once. |
| DocumentService.SplitCamelCaseAddsOnlySpaces | furia-backend/src/document/document.service.ts:39 | Only spaces are inserted: with spaces removed the text is unchanged. |
| DocumentController.StoredFilenameKeepsExtension | furia-backend/src/document/document.controller.ts:64-70 | The stored name `field-suffix+extname(original)`, and the path under the upload directory, have exactly the original extension. |
| DocumentController.UploadDocument | furia-backend/src/document/document.controller.ts:75-108 | The new store and the result are those of `UploadDocumentStep`. |
| DocumentController.UploadDocumentKeepsValid | furia-backend/src/document/document.controller.ts:75-108 | An upload, refused or saved, keeps the store well formed and the award tags unique. |
| DocumentController.UploadKeepsOneDocumentPerType | furia-backend/src/document/document.controller.ts:75-108 | An upload keeps at most one document per user and type. |
| DocumentController.UploadGuards | furia-backend/src/document/document.controller.ts:79-96 | The refusals come in order with nothing written: no file, then no type, then a negative verdict. |
| DocumentController.UploadSucceedsIff | furia-backend/src/document/document.controller.ts:75-108 | Success iff a file, a non-empty type, a yes verdict and a successful save. The store is then the save's, and any earlier refusal changes nothing. |
| DocumentController.DownloadDocument | furia-backend/src/document/document.controller.ts:34-48 | The stored name of the caller's document with that id. BadRequest iff the caller owns none. |
| DocumentController.DownloadOthersRefused | furia-backend/src/document/document.controller.ts:40-44 | Another user's document is never served, even by its id. |
| EsportsService.IsValidReplyAlways | furia-backend/src/esports/esports.service.ts:48-52 | The verdict is true for every reply: 'invalid' contains 'valid' and 'inválido' contains 'válido'. |
| EsportsService.PlatformField | furia-backend/src/esports/esports.service.ts:57-78 | leagueoflegends→lol and rainbowsix→rainbowSix. Any other name maps to itself lower-cased. |
| EsportsService.PlatformFieldIgnoresCase | furia-backend/src/esports/esports.service.ts:57 | Names that differ only in case select the same column. |
| EsportsService.ValidateProfile | furia-backend/src/esports/esports.service.ts:17-106 | The new store and the result are those of `ValidateProfileStep`. |
| EsportsService.ValidateProfileNeverThrows | furia-backend/src/esports/esports.service.ts:94-105 | Never an error. The URL is returned iff isValid. |
| EsportsService.NoContentFallsBack | furia-backend/src/esports/esports.service.ts:43-46 | A failed request or empty content gives `{false, 'Error validating profile'}` and writes nothing. |
| EsportsService.ContentValidates | furia-backend/src/esports/esports.service.ts:44-98 | Any content the store accepts writes the URL to the platform's column and to nothing else. The users become the old ones with this row written and, unless `ESPORTS_VALIDATION_<PLATFORM>` was paid, the counter raised by 10. The ledger gains that one entry if paid, documents are unchanged, and the reply is the message. |
| EsportsService.PasswordPlatformOverwritesHash | furia-backend/src/esports/esports.service.ts:76-91 | The platform "password" falls to the default branch. It replaces the stored password hash with the URL and pays `ESPORTS_VALIDATION_PASSWORD`. |
| EsportsService.RefusedWriteFallsBack | furia-backend/src/esports/esports.service.ts:82-105 | A write the store refuses gives the fallback with nothing written. Examples are a column the table lacks, a null, or another user's email. |
| EsportsService.RevalidateEarnsNothing | furia-backend/src/esports/esports.service.ts:82-91 | Validating a platform again stores the new URL and pays nothing. |
| EsportsService.ValidateProfileKeepsValid | furia-backend/src/esports/esports.service.ts:17-106 | An e-sports check keeps the store well formed and the award tags unique. |
| Text.DigitsOf | furia-frontend/src/app/settings/page.tsx:38 | The non-digits are removed: all that is left is digits, and no longer than the input. |
| SettingsPage.WeightedSum | furia-frontend/src/app/settings/page.tsx:44-47 | The sum over the first `n` digits of digit `i` times `top − i`. Its contract states only that the sum is never negative. |
| SettingsPage.CheckDigit | furia-frontend/src/app/settings/page.tsx:48-50 | 11 minus the remainder, with 10 and 11 read as 0, is a digit from 0 to 9. |
| SettingsPage.IsValidCPF | furia-frontend/src/app/settings/page.tsx:37-61 | The stripping, the length and repeated-digit tests and the two counted loops compute exactly the CPF rule. |
| SettingsPage.CheckDigitStandardForm | furia-frontend/src/app/settings/page.tsx:48-50 | The check digit equals the Receita Federal form `(10·sum mod 11) mod 10`. |
| SettingsPage.NonDigitIgnored | furia-frontend/src/app/settings/page.tsx:38 | Inserting a non-digit anywhere does not change the verdict. |
| SettingsPage.ExampleValid | furia-frontend/src/app/settings/page.tsx:37-61 | The number 529.982.247-25 passes. |
| SettingsPage.RepdigitsPassChecksums | furia-frontend/src/app/settings/page.tsx:42 | Eleven copies of any digit pass both checksums, so only the repeated-digit test rejects them. |
| SettingsPage.CheckDigitsDetermined | furia-frontend/src/app/settings/page.tsx:44-58 | Two valid numbers that agree on the first nine digits agree on all eleven. |
| SettingsPage.SaveProfile | furia-frontend/src/app/settings/page.tsx:254-276 | No token is refused. A non-empty CPF must pass, and an empty one is not checked. Otherwise the payload's keys are exactly the six profile fields, and name and email are never sent. |
| SettingsPage.SaveProfilePayload | furia-frontend/src/app/settings/page.tsx:269-276 | Each payload value is the form's, and the name and email never affect the outcome. |
| SettingsPage.IsSocialLinked | furia-frontend/src/app/settings/page.tsx:717-721 | True iff some account's provider equals the given one ignoring case. |
| SettingsPage.Unlinked | furia-frontend/src/app/settings/page.tsx:653-657 | Keeps exactly the accounts whose provider differs ignoring case. |
| SettingsPage.UnlinkEffect | furia-frontend/src/app/settings/page.tsx:653-657 | After unlinking, the provider shows as unlinked under any spelling, others as before, and unlinking again changes nothing. |
| SettingsPage.SaveButtonShown | furia-frontend/src/app/settings/page.tsx:1228-1233 | Tab "0" shows it and tab "3" hides it. Tab "1" shows it iff nothing was validated and nothing uploaded; any other tab iff nothing was uploaded. |
| PointsHistoryPage.ActionDescription | furia-frontend/src/app/points/history/page.tsx:302-324 | A listed tag shows its label; any other tag shows itself. |
| PointsHistoryPage.ShownRawIff | furia-frontend/src/app/points/history/page.tsx:323 | A tag is shown as itself iff it has no label. |
| PointsHistoryPage.RedemptionsLabelled | furia-frontend/src/app/points/history/page.tsx:317-320 | For every reward in the catalogue, the `REDEMPTION_<id>` tag shows 'Resgate: ' followed by the reward's name. |
| PointsHistoryPage.ProfileTagsLabelled | furia-frontend/src/app/points/history/page.tsx:304-305 | PROFILE_UPDATE and DOCUMENT_VALIDATION are labelled. The controller's `profile_update` is not, so it shows raw. |
| PointsHistoryPage.SocialLinkTagsLabelled | furia-frontend/src/app/points/history/page.tsx:306-310 | For every provider in the backend's list, its `SOCIAL_LINK_` tag has a label. |
| PointsHistoryPage.EsportsTagsLabelled | furia-frontend/src/app/points/history/page.tsx:311-316 | For every platform on the page, its `ESPORTS_VALIDATION_` tag has a label. |
| PointsHistoryPage.RedeemDisabled | furia-frontend/src/app/points/history/page.tsx:223-227 | Enabled iff this reward is not being redeemed, the balance covers it, and no redemption is in progress. |
| PointsHistoryPage.RedeemFlags.constructor | furia-frontend/src/app/points/history/page.tsx:93-122 | Both flags start cleared. |
| PointsHistoryPage.RedeemFlags.Begin | furia-frontend/src/app/points/history/page.tsx:94-98 | Nothing happens while disabled. Otherwise both flags are set. |
| PointsHistoryPage.RedeemFlags.Finish | furia-frontend/src/app/points/history/page.tsx:118-121 | Both flags are cleared. |
| PointsHistoryPage.RedeemFlags.HandleRedeem | furia-frontend/src/app/points/history/page.tsx:93-122 | While disabled, a no-op with no toast. Otherwise both flags end cleared and the outcome's toast is shown. |
| PointsHistoryPage.RedeemToast | furia-frontend/src/app/points/history/page.tsx:110-117 | The success message, the error's message, or the generic one when that is empty; never empty. |
| PointsHistoryPage.InProgressDisablesAll | furia-frontend/src/app/points/history/page.tsx:223-227 | During a redemption every button is disabled. Afterwards a button is enabled iff the balance covers its cost. |
| PointsHistoryPage.HttpStatus | furia-backend/src/points/points.service.ts:83 | The status a thrown error answers with: a plain `Error` gives 500, and the Nest exceptions give their 4xx codes. |
| PointsHistoryPage.RequestOutcome | furia-frontend/src/services/pointsService.ts:26-32 | The request succeeds iff the backend does. A failure carries only 'Request failed with status code ' and the status, not the backend's message. |
| PointsHistoryPage.OnlyStatusShown | furia-frontend/src/app/points/history/page.tsx:115-117 | Two failures with the same status show the same toast, the status text. |
| PointsHistoryPage.InsufficientShownAsStatus | furia-frontend/src/app/points/history/page.tsx:115-117 | An uncovered redemption shows 'Request failed with status code 500', not the backend's 'Pontos insuficientes para resgate'. |
| PointsHistoryPage.StyleAmount | furia-frontend/src/app/points/history/page.tsx:277-284 | Above 0: '+' and green. Otherwise, 0 included: no sign and red. |
| PointsHistoryPage.RedemptionShownAsDebit | furia-frontend/src/app/points/history/page.tsx:277-284 | A covered redemption's entry is shown red and unsigned, and an award of 10 green with '+'. |
| AuthForm.SignupError | furia-frontend/src/components/AuthForm.tsx:37-53 | No error iff every field is filled, the name has at least 3 characters and the password at least 6. |
| AuthForm.HandleSignup | furia-frontend/src/components/AuthForm.tsx:32-75 | The request is sent iff the checks pass. A refusal shows its toast, sends nothing and resets loading. The form moves on, still loading, iff the server accepts. |
| AuthForm.SignupChecksOrdered | furia-frontend/src/components/AuthForm.tsx:37-53 | Only the first failing check is reported: missing fields, then a short name, then a short password. |
| AuthForm.RefusalIgnoresServer | furia-frontend/src/components/AuthForm.tsx:37-53 | A refused sign-up does not depend on the server. |
| AuthForm.HandleLogin | furia-frontend/src/components/AuthForm.tsx:76-91 | No request body is sent and success moves on. A toast is shown exactly when loading is reset. A throw shows the generic message. |
| UserProfileCard.ProfileUrl | furia-frontend/src/components/UserProfileCard.tsx:86-118 | Twitter, Instagram, Facebook and Twitch get their fixed prefix followed by the id. Discord's link is always '#'. |
| UserProfileCard.WithUrls | furia-frontend/src/components/UserProfileCard.tsx:83-119 | One card entry per account, with its provider, its id and its link. |
| UserProfileCard.LoadProfile | furia-frontend/src/components/UserProfileCard.tsx:57-129 | No list without a token or when the response is not ok. Otherwise the pushes give exactly the card of the backend's list. |
| UserProfileCard.CardMatchesBackend | furia-frontend/src/components/UserProfileCard.tsx:80-122 | At most 5 entries, only set ids, each with its stored id, every set provider, in the fixed order, and Discord with '#'. |

## Left out

- Case mapping: `toLowerCase`/`toUpperCase` are modelled on ASCII letters only. JavaScript maps all of Unicode, so the model differs for non-ASCII letters.
- The check-then-write races in `addPoints` and `redeemPoints`: every call is modelled as sequential and atomic.
- The OpenAI requests, Tesseract and pdf-parse OCR, and `getLLMFormattedText`: the model reply is an input, so the prompts are not modelled. `processOCR` is modelled only through its camel-case cleanup.
- bcrypt hashing and comparison, JWT signing, and the OAuth token checks and exchanges (`verify*Token`, `verifyProviderToken`, `getTwitterToken`, `getInstagramToken`): each result is a parameter.
- File-system effects: the upload's disk write, the file removal in `deleteDocument`, and `res.download`. The unique suffix in the upload name (time and random number) is a parameter.
- `UsersService`, which the `users` controller delegates to, is not part of this model. Its `update` is taken to be the store's user update.
- UsersController.Update: the model takes `userId` as the caller's id. The source reads `req.user.id` (users.controller.ts:31, 38, 42). But the token payload is `{ userId, email }` (user.service.ts:66), and the other controllers read `user.userId` (user.controller.ts:36, 43; points.controller.ts:13). The JWT strategy that fills `req.user` is not part of this model. If it returns the payload unchanged, `req.user.id` is `undefined`, and the update and the award go to no user. The model does not capture that.
- SettingsPage.WeightedSum: its contract states only non-negativity. Its value is given by its definition, the loop invariants of `IsValidCPF`, and `WeightedSumConstant`.
- HTTP transport: NestJS's exception filter and axios are modelled only by `HttpStatus` and `RequestOutcome`, on the redemption path the points page uses.
- The table schema is not part of this model. The nullable user columns are taken to be the ones `getUserById` selects besides id, name and email (user.service.ts:98-119). Name, email and password are taken to be required string columns: an update may set them but not null them, and the email is unique. `hasAcceptedTerms` is taken to default to false, since `createUser` never sets it (user.service.ts:38-44).
- UpdateFields: an update DTO's non-string columns (`points`, `hasAcceptedTerms`, `id`) are not modelled. A key naming one is refused like an unknown column, though Prisma would write it.
- DocumentService.ValidateDocument: the MB size computation is float division, modelled as the exact whole-byte comparison `size > 10·1024·1024`.
- PointsHistoryPage.ActionDescription: JavaScript object keys inherited from the prototype (`"constructor"`, `"toString"`) are not modelled. Only the 17 listed tags have labels.
- AuthForm.SignupError: lengths are counted in characters. JavaScript counts UTF-16 code units, which differs outside the Basic Multilingual Plane.
- SettingsPage.SaveProfile: only the personal-data tab "0" is modelled. The document tab "1" goes through the upload endpoint, which `DocumentController.UploadDocument` models. The other tabs' saves, the OAuth popup, PKCE and `generateRandomString` are browser effects and randomness.
- Toasts, redirects, timeouts, React rendering and stale-state effects are left out. Toasts and redirects are returned as values where they mark an outcome.
- PointsHistoryPage.RedeemFlags.HandleRedeem: the 2-second wait, the points reload and the page reload are not modelled; their combined outcome is a parameter.
- Timestamps: `createdAt` and document ids come from a counter in the state. This gives the monotone order the newest-first listings need, though real ids are strings.
- The controllers that only forward arguments (`user.controller`, `points.controller`, `esports.controller`) and the static pages are left out. Award amounts are not assumed positive, since `points.controller` forwards any amount.
