# Job portal: a Dafny model

This project models the core of a small job and internship portal, covering three parts.

- A FastAPI backend. Students upload a CV, apply for jobs, keep a profile and submit projects. Administrators post jobs and read applications. Every applicant gets an ATS score, which counts how many keywords of the job occur in the CV text. The backend also provides password recovery with single-use tokens, notifications, and a registry of WebSocket connections. A scraper fills a job from a posting page.
- The student single-page app: the authentication context, the route guards, the realtime client, the job list with filters and pagination, the job page, and the notification bell.
- The admin single-page app: the dashboard of jobs and their applications, a student page, the project dashboard, and its own realtime client.

## How the model is built

The model has one Dafny module per source area.

- **Models** holds the rows, the enumerations and the request bodies with their defaults.
- **Store** holds the database session: the class `Database`, with one `seq` per table and the primary-key counter.
  - Its `Valid()` states what the schema guarantees: distinct keys, unique e-mails and one profile per user. It also states one application per (job, student) pair. No constraint of the schema keeps that one; only the guard of the apply endpoint, the only writer of applications, does.
  - Each endpoint that writes rows is a method that `modifies db` and keeps `Valid()`. Its new state is tied to a pure function of the old tables. The guard chains, the error codes and the properties are proved about that function.
- **ConnectionManager** (module `Realtime`) is a class over a `map<nat, seq<Socket>>`.
- **The browser realtime provider** (module `RealtimeClient`) is two layers.
  - A pure state machine, `Step`, runs over the histories of every socket and timer. Each one records what its handlers captured.
  - The class `WebSocketProvider` has one method per browser callback. Each method's new state is `Step` of the old one.
- **The React pages** are pure functions from the state before a handler to the state after it.

Foreign calls are parameters of the functions that use them:
- the JWT decoder;
- bcrypt hashing and checking;
- SHA-256;
- PDF text extraction;
- the storage signer;
- the HTTP fetch of the scraper.

Time is an integer parameter. Answers from the server are `Option` or answer datatypes.

### Behaviour of the code worth knowing

- **Live sockets.** The realtime client's close handler tests the token captured when its socket was created, not the current one. So a reconnect can follow logout, and two sockets can be live after a token switch. The close handler also clears the reference to the current socket even when the closing socket is a superseded one.
  - `RealtimeClient.LogoutStillReconnects` shows a reconnect after logout.
  - `RealtimeClient.TokenSwitchLeavesTwoLiveSockets` shows two live sockets after a token switch.
- **Event handling in consumers.** The student app's job list and notification bell neither de-duplicate events nor patch rows in place: on every new `lastEvent` they only refetch. No page of the admin app reads `lastEvent`, and the admin app's `App.tsx` does not mount its provider.

## Model

| member | source | states |
|---|---|---|
| Models.ParseRole | backend/app/models/user.py:9-12 | accepts exactly "student", "mentor" and "admin", and the accepted value renders back to the input |
| Models.RoleRoundTrip | backend/app/models/user.py:9-12 | parsing the name of a role gives the role back; a parsed string is the name of its role |
| Models.ParseApplicationStatus | backend/app/models/application.py:7-11 | accepts exactly the four status names, each rendering back to the input |
| Models.ApplicationStatusRoundTrip | backend/app/models/application.py:7-11 | every application status survives rendering and parsing |
| Models.ParseSkillLevel | backend/app/models/student_profile.py:6-9 | accepts exactly beginner, intermediate and advanced |
| Models.ParseProjectStatus | backend/app/models/project.py:7-10 | accepts exactly pending, approved and rejected |
| Models.NewUser | backend/app/models/user.py:17-23 | a user stored with only email and hash is an active student with no name and no CV |
| Models.NewApplication | backend/app/models/application.py:16-22 | column defaults: status applied, score 0.0 |
| Models.NewNotification | backend/app/models/notification.py:8-13 | column defaults: type "info", unread, created now, for the given recipient and message |
| Models.FindUserUnique | backend/app/models/user.py:17 | under distinct primary keys the lookup by id finds the one row with that id |
| Store.Database.constructor | backend/app/models/user.py:17-18 | an empty session satisfies every key and uniqueness constraint |
| Ats.Tokens | backend/app/api/v1/applications.py:33-34 | the words after replacing commas with spaces and splitting on white space: each non-empty, without white space and without a comma |
| Ats.TokensRebuild | backend/app/api/v1/applications.py:33-34 | the text with commas replaced is exactly the tokens interleaved with white-space gaps, every inner gap non-empty: the split loses and invents nothing |
| Common.SplitWords | backend/app/api/v1/applications.py:33-34 | `str.split()`: the string is exactly its words interleaved with white-space gaps, every inner gap non-empty |
| Ats.Keywords | backend/app/api/v1/applications.py:33-34 | every keyword is longer than two characters, and there are no more keywords than tokens |
| Ats.LongWords | backend/app/api/v1/applications.py:33-34 | keeps the lower-cased form of every word longer than the bound, and nothing shorter |
| Ats.LongWordsOnly | backend/app/api/v1/applications.py:33-34 | every kept keyword is the lower-cased form of some long enough word of the input |
| Ats.KeywordsCharacterised | backend/app/api/v1/applications.py:33-34 | a keyword is exactly a lower-cased requirement token longer than 2 or a description token longer than 4, in both directions |
| Ats.Distinct | backend/app/api/v1/applications.py:39 | the set of keywords holds exactly the list's elements, and is non-empty for a non-empty list |
| Ats.MatchedSet | backend/app/api/v1/applications.py:41-43 | the matched keywords are exactly the distinct keywords that occur in the CV text |
| Ats.Percentage | backend/app/api/v1/applications.py:45-48 | the boosted and capped score lies between 0 and 100 |
| Ats.TextScore | backend/app/api/v1/applications.py:39-48 | the score of a text against a non-empty keyword list lies between 0 and 100 |
| Ats.KeywordScore | backend/app/api/v1/applications.py:36-48 | 50 for an empty keyword list, otherwise a score between 0 and 100 |
| Ats.Score | backend/app/api/v1/applications.py:16-52 | 0 without a readable CV, 50 when the job yields no keyword, otherwise between 0 and 100 |
| Ats.FullScoreIff | backend/app/api/v1/applications.py:45-48 | the capped score is 100 exactly when at least five sixths of the distinct keywords are found |
| Ats.ScoreExtremes | backend/app/api/v1/applications.py:45-48 | no keyword found scores 0; every keyword found scores 100 |
| Ats.PercentageMonotone | backend/app/api/v1/applications.py:45-48 | finding more keywords never lowers the score |
| Ats.MatchedSetAdd | backend/app/api/v1/applications.py:41-43 | one more keyword adds one to the count exactly when it occurs in the text |
| Ats.CountMatched | backend/app/api/v1/applications.py:39-43 | the counting loop returns the number of distinct keywords present in the text |
| Ats.ScoreKeywords | backend/app/api/v1/applications.py:36-48 | the no-keyword branch and the counting loop compute the specified score of the text |
| Ats.CalculateAtsScore | backend/app/api/v1/applications.py:16-52 | the procedure computes the specified score, including the missing-file, no-keyword and extraction-error paths |
| Deps.GetCurrentUser | backend/app/api/deps.py:31-47 | 403 exactly when the token does not decode; 404 exactly when its subject names no user; otherwise a row of the table whose id is the subject |
| Deps.GetCurrentActiveUser | backend/app/api/deps.py:49-54 | errors of the first step pass through; 400 exactly for an inactive user; otherwise an active user |
| Deps.ActiveUserIff | backend/app/api/deps.py:31-54 | a request gets through iff its token names an active user, and then acts as that user's row |
| Applications.ApplyRefusal | backend/app/api/v1/applications.py:65-88 | refusals in source order (403 non-student, 400 no CV, 404 unknown job, 400 already applied); none exactly when all four checks pass |
| Applications.AlreadyApplied | backend/app/api/v1/applications.py:82-88 | true exactly when the first-row query for the job and the student finds a row |
| Applications.ApplyKeepsOnePerPair | backend/app/api/v1/applications.py:82-103 | an application that passed the guards keeps one application per (job, student) |
| Applications.ReapplyRefused | backend/app/api/v1/applications.py:82-88 | a second apply for the same job by the same student is refused with 400 |
| Applications.ApplyForJob | backend/app/api/v1/applications.py:54-104 | a refused request stores nothing; otherwise exactly one row is appended with status applied, the CV snapshot and the ATS score of the stored CV; every other table is unchanged |
| Applications.ListApplicationsAdmin | backend/app/api/v1/applications.py:106-127 | 403 exactly for non-admins; otherwise the page from `skip` of at most `limit` rows, of the whole table without a job id or with id 0, else of the rows for that job in table order |
| Applications.MatchesJobFilter | backend/app/api/v1/applications.py:123-124 | a missing or zero job id lets every row through; any other id exactly the rows for that job |
| Applications.AdminListComplete | backend/app/api/v1/applications.py:123-126 | from offset 0 with a large enough limit, an admin sees every matching application |
| Applications.MyApplications | backend/app/api/v1/applications.py:129-138 | exactly the caller's applications |
| PasswordReset.FindUserByEmail | backend/app/api/v1/endpoints/password_reset.py:25-28 | finds a user with that e-mail, or reports that none has it |
| PasswordReset.Recover | backend/app/api/v1/endpoints/password_reset.py:19-52 | the same message in every case; a token row (digest, 30-minute expiry, unused) and a mail with the raw token exactly when the address is registered |
| PasswordReset.RecoveryDoesNotEnumerate | backend/app/api/v1/endpoints/password_reset.py:26-28 | the answer does not depend on the address asked about |
| PasswordReset.RecoverPassword | backend/app/api/v1/endpoints/password_reset.py:19-52 | the session gains exactly the row of `Recover`; the message and the mail are those of `Recover` |
| PasswordReset.FindRedeemable | backend/app/api/v1/endpoints/password_reset.py:59-68 | finds a row with the digest that is unused and unexpired, or reports that none is |
| PasswordReset.RedeemableUntilExpiry | backend/app/api/v1/endpoints/password_reset.py:61-65 | a row redeemable now stays redeemable exactly until its expiry instant |
| PasswordReset.ResetWith | backend/app/api/v1/endpoints/password_reset.py:54-85 | 400 without a redeemable row and 404 without its user, with nothing changed; a redeemable row whose user exists always succeeds, and then only that user's hash and only that row's used flag change |
| PasswordReset.ReplayRefused | backend/app/api/v1/endpoints/password_reset.py:59-78 | single use: after a success the consumed row is never accepted again, and replaying the token gets 400 |
| PasswordReset.RecoverThenReset | backend/app/api/v1/endpoints/password_reset.py:19-85 | a mailed token resets the owner's password at any time before its expiry |
| PasswordReset.ResetPassword | backend/app/api/v1/endpoints/password_reset.py:54-85 | the session's users and tokens become those of `ResetWith`; the rest is unchanged |
| StudentProfiles.ReadProfileMe | backend/app/api/v1/endpoints/student_profile.py:12-32 | 404 exactly when the caller has no profile; otherwise the caller's profile |
| StudentProfiles.ReadProfileMeIgnoresRole | backend/app/api/v1/endpoints/student_profile.py:19-22 | the role test with an empty body has no effect: every role gets the same answer |
| StudentProfiles.CreateRefusal | backend/app/api/v1/endpoints/student_profile.py:44-50 | 400 for non-students, then 400 for an existing profile; none exactly for a student without a profile |
| StudentProfiles.NewProfile | backend/app/api/v1/endpoints/student_profile.py:52-81 | the stored profile carries exactly the body's URLs, projects and skills under the caller's id |
| StudentProfiles.CreateKeepsOneProfile | backend/app/models/student_profile.py:15 | a successful create keeps one profile per user, and a second create is refused |
| StudentProfiles.CreateProfile | backend/app/api/v1/endpoints/student_profile.py:35-83 | a refusal stores nothing; otherwise the new profile is appended under a fresh key (the projects and skills are copied by loops) |
| StudentProfiles.Overwrite | backend/app/api/v1/endpoints/student_profile.py:102-107 | a given field replaces the stored one; an absent field keeps it |
| StudentProfiles.ApplyUpdate | backend/app/api/v1/endpoints/student_profile.py:102-134 | each given URL replaces the stored one; each given list replaces the whole stored list; id and owner never change |
| StudentProfiles.UpdateIdempotent | backend/app/api/v1/endpoints/student_profile.py:102-134 | sending the same update twice stores what sending it once does |
| StudentProfiles.EmptyUpdateKeeps | backend/app/schemas/student_profile.py:46-48 | the empty update body changes nothing |
| StudentProfiles.UrlsNeverCleared | backend/app/api/v1/endpoints/student_profile.py:102-107 | a stored URL can never be cleared through the update |
| StudentProfiles.UpdatesCompose | backend/app/api/v1/endpoints/student_profile.py:102-134 | two updates in a row equal one merged update in which the later wins |
| StudentProfiles.OneSkillAfterUpdate | backend/app/api/v1/endpoints/student_profile.py:124-134 | an update with one skill leaves exactly that skill |
| StudentProfiles.UpdatedProfile | backend/app/api/v1/endpoints/student_profile.py:102-134 | the field-by-field assignments and list rebuilding compute `ApplyUpdate` |
| StudentProfiles.UpdateProfile | backend/app/api/v1/endpoints/student_profile.py:86-138 | 404 without a profile, with nothing changed; otherwise the caller's profile is replaced by `ApplyUpdate` of it |
| StudentProfiles.ReadProfileById | backend/app/api/v1/endpoints/student_profile.py:141-162 | 404 for an unknown user, then 404 without a profile; otherwise that user's profile |
| StudentProfiles.ByIdAgreesWithMe | backend/app/api/v1/endpoints/student_profile.py:141-162 | a user reading their own profile by id gets what GET /me gives |
| Notifications.Inbox | backend/app/api/v1/notifications.py:20-23 | the recipient's notifications, each as often as stored, newest first |
| Notifications.WindowSorted | backend/app/api/v1/notifications.py:23-25 | a page of a newest-first list is newest first |
| Notifications.ReadNotifications | backend/app/api/v1/notifications.py:11-28 | at most `limit` rows, only the caller's, newest first, the requested page of the inbox |
| Notifications.ReadNotificationsComplete | backend/app/api/v1/notifications.py:11-28 | from offset 0 with a covering limit, every notification of the caller appears, as often as it is stored |
| Notifications.FindNotification | backend/app/api/v1/notifications.py:39 | finds the row with that id, or reports that none has it |
| Notifications.MarkRead | backend/app/api/v1/notifications.py:31-49 | 404 exactly for an unknown id and 400 exactly for someone else's row, with nothing changed; otherwise only that row becomes read |
| Notifications.MarkReadIdempotent | backend/app/api/v1/notifications.py:31-49 | marking twice leaves the table as marking once |
| Notifications.MarkNotificationAsRead | backend/app/api/v1/notifications.py:31-49 | the session's notifications become those of `MarkRead` |
| Notifications.MarkAll | backend/app/api/v1/notifications.py:59-62 | every notification of the recipient becomes read; no other field and no other recipient's row changes |
| Notifications.NothingUnreadAfterMarkAll | backend/app/api/v1/notifications.py:59-62 | afterwards the recipient has no unread notification |
| Notifications.MarkAllAnswer | backend/app/api/v1/notifications.py:67-73 | the answer has at most 100 rows, newest first, all the caller's and all read |
| Notifications.MarkAllAsRead | backend/app/api/v1/notifications.py:52-73 | the loop leaves the table of `MarkAll` and answers the newest hundred |
| Users.CvFileName | backend/app/api/v1/users.py:39 | the CV name has the form user_<id>_cv.pdf |
| Users.CvFileNamesDistinct | backend/app/api/v1/users.py:39 | two users never share a CV file name |
| Users.UploadCvResult | backend/app/api/v1/users.py:26-54 | 400 for a non-PDF; 500 when the write fails; otherwise the row with its CV name set |
| Users.ReuploadSameName | backend/app/api/v1/users.py:39-49 | a second upload stores the same name, replacing the file |
| Users.ChangePasswordResult | backend/app/api/v1/users.py:69-85 | 400 exactly when the current password does not verify; otherwise only the hash changes, to the hash of the new password |
| Users.ChangeThenOldRefused | backend/app/api/v1/users.py:69-85 | after a change the new password is accepted as current and the old one is refused |
| Users.UpdateMeResult | backend/app/api/v1/users.py:87-106 | a given name or e-mail replaces the stored one and nothing else changes; an e-mail held by another row fails the commit with 500 |
| Users.UpdateMeKeepsEmailsUnique | backend/app/models/user.py:18 | an update that goes through keeps e-mails unique |
| Users.StoreCallerRow | backend/app/api/v1/users.py:49-51 | the caller's row is replaced and every other table is unchanged |
| Users.SameEmailKeepsUnique | backend/app/models/user.py:18 | a change to a row that keeps its e-mail keeps e-mails unique |
| Users.UploadCv | backend/app/api/v1/users.py:26-54 | the answer is that of `UploadCvResult`; on success the caller's row is replaced by it, otherwise nothing changes |
| Users.ChangePassword | backend/app/api/v1/users.py:69-85 | the answer and the caller's row are those of `ChangePasswordResult` |
| Users.UpdateMe | backend/app/api/v1/users.py:87-106 | the answer and the caller's row are those of `UpdateMeResult` |
| Projects.CreateProjectResult | backend/app/api/v1/projects.py:12-36 | 403 exactly for non-students; otherwise a pending project of the caller with the given fields |
| Projects.CreateProject | backend/app/api/v1/projects.py:12-36 | the new row is appended under a fresh key; nothing else changes |
| Projects.ReadProjects | backend/app/api/v1/projects.py:39-54 | a student gets the page from `skip` of at most `limit` of their own projects in table order; other roles the same page of all projects |
| Projects.StudentSeesOwnProjects | backend/app/api/v1/projects.py:50-51 | from offset 0 with a covering limit, a student sees every project of theirs |
| Projects.FindProject | backend/app/api/v1/projects.py:66 | finds the row with that id, or reports that none has it |
| Projects.ReadProject | backend/app/api/v1/projects.py:57-74 | 404 for an unknown id; 403 exactly for a student asking for someone else's project; otherwise the project |
| Projects.ListedProjectReadable | backend/app/api/v1/projects.py:39-74 | whatever the listing shows a caller, that caller can also fetch by id |
| Jobs.CreateJobResult | backend/app/api/v1/jobs.py:12-36 | 403 exactly for non-admins; otherwise a job with the given title, description and requirements, posted by the caller |
| Jobs.JobTypeAndDepartmentDropped | backend/app/api/v1/jobs.py:27-32 | the stored job does not depend on the job type or department sent |
| Jobs.CreateJob | backend/app/api/v1/jobs.py:12-36 | the new row is appended under a fresh key; nothing else changes |
| Jobs.ReadJobs | backend/app/api/v1/jobs.py:39-49 | the rows from `skip` on in stored order, exactly min(limit, rows left) of them, none past the end of the table |
| Jobs.PagesCoverTable | backend/app/api/v1/jobs.py:48 | consecutive pages put together give the whole table in order |
| Jobs.ReadJob | backend/app/api/v1/jobs.py:52-64 | 404 exactly for an unknown id; otherwise the job with that id |
| Jobs.PostedJobReadable | backend/app/api/v1/jobs.py:12-64 | a job just posted is what reading its id returns |
| CvDownload.SignedUrl | backend/app/api/v1/endpoints/cv.py:42-48 | the dictionary entry "signedURL", else the object's attribute, else the reply's string form |
| CvDownload.DownloadCv | backend/app/api/v1/endpoints/cv.py:12-52 | 403 unless admin or owner; then 404 for an unknown student, 404 without a CV, 404 when signing raises; otherwise the URL signed for one hour |
| CvDownload.ForeignCvRefusedBlindly | backend/app/api/v1/endpoints/cv.py:22-23 | a student asking for someone else's CV gets the same 403 whatever the tables and the storage hold |
| CvDownload.OwnCvDownloadable | backend/app/api/v1/endpoints/cv.py:22-48 | a student with a CV always gets a URL for their own file when the storage signs it |
| Realtime.ConnectMap | backend/app/core/manager.py:10-14 | the socket is appended to the user's list, created if absent; other users are untouched |
| Realtime.RemoveFirst | backend/app/core/manager.py:19 | removes one element when present; leaves the list as it is when absent |
| Realtime.RemoveFirstMultiset | backend/app/core/manager.py:19 | exactly one copy of the socket goes |
| Realtime.IndexOf | backend/app/core/manager.py:18-19 | the position of the first occurrence |
| Realtime.RemoveFirstSplits | backend/app/core/manager.py:19 | the copy removed is the first one |
| Realtime.RemoveFirstAppended | backend/app/core/manager.py:14-19 | removing a socket just appended gives the list back |
| Realtime.DisconnectMap | backend/app/core/manager.py:16-21 | the socket leaves the user's list, and the user is dropped once the list is empty; keeps the no-empty-list invariant |
| Realtime.ConnectDisconnectRoundTrip | backend/app/core/manager.py:10-21 | connecting a new socket and disconnecting it restores the registry |
| Realtime.SendsTo | backend/app/core/manager.py:25-26 | one send per socket, in list order |
| Realtime.ConnectionManager.constructor | backend/app/core/manager.py:5-8 | the registry starts empty |
| Realtime.ConnectionManager.Connect | backend/app/core/manager.py:10-14 | the registry becomes `ConnectMap` of it |
| Realtime.ConnectionManager.Disconnect | backend/app/core/manager.py:16-21 | the registry becomes `DisconnectMap` of it |
| Realtime.ConnectionManager.SendPersonalMessage | backend/app/core/manager.py:23-26 | one send to each of the user's sockets; nothing for an unknown user |
| Realtime.ConnectionManager.Broadcast | backend/app/core/manager.py:28-32 | every registered socket, and only those, is sent the message |
| Realtime.ConnectionManager.BroadcastToRole | backend/app/core/manager.py:34-46 | the body is `pass`: nothing is sent |
| Scraper.NormaliseUrl | backend/app/services/scraper.py:20-21 | a URL without an http or https prefix gets "https://"; the result always has such a prefix |
| Scraper.NormaliseUrlIdempotent | backend/app/services/scraper.py:20-21 | normalising twice is normalising once |
| Scraper.BeforeFirst | backend/app/services/scraper.py:36 | the part before the first separator is a prefix without the separator |
| Scraper.OgTitle | backend/app/services/scraper.py:34-36 | the og:title content cut at the first bar holds no bar and neither starts nor ends with white space; empty without the tag |
| Scraper.OgTitleIsTrimmedCut | backend/app/services/scraper.py:34-36 | cut at the first bar and stripped: the content before the first bar is exactly a white-space run, the og title and a white-space run |
| Common.TrimmedSpace | backend/app/services/scraper.py:36 | `lstrip`: every character before the kept text is white space, and the kept text starts with none |
| Common.TrimmedRightSpace | backend/app/services/scraper.py:36 | `rstrip`: every character after the kept text is white space, and the kept text ends with none |
| Common.TrimRightSplits | backend/app/services/scraper.py:36 | `rstrip`: the string is the kept text followed by a run of white space |
| Common.StripSplits | backend/app/services/scraper.py:36 | `str.strip()`: a string is its leading white space, the stripped text and its trailing white space |
| Scraper.StripInside | backend/app/services/scraper.py:36 | stripping keeps only characters of the input |
| Scraper.OgSiteName | backend/app/services/scraper.py:47-49 | the og:site_name content; empty without the tag or its content |
| Scraper.FirstMatch | backend/app/services/scraper.py:39-44 | the text of a selector whose element exists and passes the test, and every earlier selector fails; none exactly when no selector qualifies |
| Scraper.CloseFrom | backend/app/services/scraper.py:73 | the first closing parenthesis at or after a position |
| Scraper.GroupAt | backend/app/services/scraper.py:73 | a match of the pattern at a position ("(", one or more non-")" characters, ")") with its group, and there is one whenever a "(" is followed by a later first ")" |
| Scraper.ParenGroupFrom | backend/app/services/scraper.py:73-75 | a group exactly when the pattern matches at some position from the start; then the group of the leftmost match, non-empty and without ")" |
| Scraper.ParenGroup | backend/app/services/scraper.py:71-75 | `re.search` over the whole title: a group exactly when the pattern matches somewhere, the leftmost match's group |
| Scraper.EmptyParensNoGroup | backend/app/services/scraper.py:73 | "()" yields no group |
| Scraper.Collect | backend/app/services/scraper.py:110-123 | the sibling walk extends what it has, adds only non-empty texts and stops after 21 |
| Scraper.CollectKeeps | backend/app/services/scraper.py:110-123 | the walk adds exactly the kept siblings' texts, in order, up to the cap of 21 |
| Scraper.SectionHeadingIff | backend/app/services/scraper.py:106-108 | a heading opens a section exactly when one of the five keywords occurs in its lower-cased text |
| Scraper.SectionDescriptionFirst | backend/app/services/scraper.py:104-127 | none exactly when no heading opens a non-empty section; otherwise the joined texts of the first heading that does |
| Scraper.Title | backend/app/services/scraper.py:34-44 | a non-empty og:title wins; otherwise, when some title selector finds an element, the text of the first one that does, every earlier selector finding none; empty when none does |
| Scraper.Company | backend/app/services/scraper.py:47-56 | a non-empty og:site_name wins; otherwise, when some company selector finds an element, the text of the first one that does, every earlier selector finding none; empty when none does |
| Scraper.Location | backend/app/services/scraper.py:61-78 | the first selector text shorter than 100 wins when non-empty; otherwise the title's parenthesised group when it is shorter than 30; otherwise empty |
| Scraper.Description | backend/app/services/scraper.py:82-127 | the first container text longer than 200 wins; otherwise the section description, empty when there is none |
| Scraper.Scrape | backend/app/services/scraper.py:18-135 | the empty job when the fetch fails; otherwise the empty job with title, company, location (from the page and its title) and description filled from the normalised URL's page |
| Scraper.ScrapeNormalisedSame | backend/app/services/scraper.py:20-21 | an already normalised URL scrapes the same |
| Scraper.OgTitleHasNoBar | backend/app/services/scraper.py:34-44 | a non-empty og:title wins over the selectors and holds no bar |
| Scraper.LocationShort | backend/app/services/scraper.py:61-78 | every location is shorter than 100 characters, and shorter than 30 when taken from the title |
| Scraper.SelectorLocationWins | backend/app/services/scraper.py:61-71 | the title fallback never overrides a non-empty selector location |
| Scraper.DescriptionBounds | backend/app/services/scraper.py:104-127 | a section description joins between 1 and 21 texts after a heading with a keyword |
| Scraper.ContainerDescriptionLong | backend/app/services/scraper.py:82-101 | a container description is longer than 200 characters |
| Scraper.SelectFirst | backend/app/services/scraper.py:39-44 | the selector loop computes `FirstMatch` |
| Scraper.CollectSiblings | backend/app/services/scraper.py:110-123 | the sibling loop computes `Collect` |
| Scraper.FindSectionDescription | backend/app/services/scraper.py:104-127 | the heading loop finds the first section that yields text |
| Scraper.FindTitle | backend/app/services/scraper.py:34-44 | the title step computes `Title` |
| Scraper.FindCompany | backend/app/services/scraper.py:47-56 | the company step computes `Company` |
| Scraper.FindLocation | backend/app/services/scraper.py:61-78 | the location step computes `Location` |
| Scraper.FindDescription | backend/app/services/scraper.py:82-127 | the description step computes `Description` |
| Scraper.ScrapeJobDetails | backend/app/services/scraper.py:18-135 | the procedure computes `Scrape` |
| RealtimeClient.ToWsScheme | frontend/src/context/WebSocketContext.tsx:46 | only a leading "http" becomes "ws"; https gives wss |
| RealtimeClient.WsUrl | frontend/src/context/WebSocketContext.tsx:38-52 | the configured URL with its scheme rewritten, else the page host under wss exactly for https pages; then the path and the token; the admin app (admin/src/context/WebSocketContext.tsx:31-41) builds the same URL |
| RealtimeClient.WsUrlEndsWithToken | frontend/src/context/WebSocketContext.tsx:52 | the URL ends with "?token=" and the token, unencoded |
| RealtimeClient.SecureSchemeFollows | frontend/src/context/WebSocketContext.tsx:38-50 | an https API URL gives wss and an http one gives ws; without one the page's protocol decides |
| RealtimeClient.ToastsFor | frontend/src/context/WebSocketContext.tsx:72-96 | at most one toast, only for the three events and the role each expects; missing data shows nothing; the admin app's provider shows none |
| RealtimeClient.CloseSocket | frontend/src/context/WebSocketContext.tsx:28-30 | closing moves a connecting or open socket to closing; nothing else changes |
| RealtimeClient.CloseRef | frontend/src/context/WebSocketContext.tsx:28-30 | the referenced socket, if any, is closed |
| RealtimeClient.ConnectForUser | frontend/src/context/WebSocketContext.tsx:26-119 | closes the referenced socket, opens a new one for the URL of the token, and references it |
| RealtimeClient.Cleanup | frontend/src/context/WebSocketContext.tsx:131-138 | closes the referenced socket and clears the pending timer that the reference names |
| RealtimeClient.Mount | frontend/src/context/WebSocketContext.tsx:121-130 | a truthy token opens exactly one connecting socket for it; otherwise none |
| RealtimeClient.Effect | frontend/src/context/WebSocketContext.tsx:121-130 | the effect closes the referenced socket; a truthy token then opens one connecting socket for its URL and makes it the reference; nothing else changes |
| RealtimeClient.Step | frontend/src/context/WebSocketContext.tsx:26-139 | every enabled event keeps the provider's invariant and the app and environment, and never drops a socket or timer from the histories; the admin app's provider (admin/src/context/WebSocketContext.tsx:25-102) makes the same transitions |
| RealtimeClient.UnparsedMessageIgnored | frontend/src/context/WebSocketContext.tsx:60-97 | a message that does not parse changes nothing |
| RealtimeClient.ParsedMessageRecorded | frontend/src/context/WebSocketContext.tsx:66-70 | a parsed message becomes `lastEvent` with its arrival time |
| RealtimeClient.StaleCloseClearsRef | frontend/src/context/WebSocketContext.tsx:99-102 | the close of any socket, even a superseded one, clears the reference and `isConnected` |
| RealtimeClient.ReconnectKeepsCapturedToken | frontend/src/context/WebSocketContext.tsx:104-110 | a close whose captured token is truthy schedules a reconnect with the socket's own access token |
| RealtimeClient.TimerConnectsCapturedToken | frontend/src/context/WebSocketContext.tsx:106-109 | the timer connects with its captured token, not the current one |
| RealtimeClient.TokenSwitchLeavesTwoLiveSockets | frontend/src/context/WebSocketContext.tsx:99-139 | after a token switch, the old socket's close event clears the new reference and reconnects with the old token, so two sockets are live |
| RealtimeClient.LogoutStillReconnects | frontend/src/context/WebSocketContext.tsx:99-139 | after logout the close event schedules a reconnect with the old token, and it fires |
| RealtimeClient.WebSocketProvider.constructor | frontend/src/context/WebSocketContext.tsx:121-130 | the first render's state is `Mount` |
| RealtimeClient.WebSocketProvider.CloseReferenced | frontend/src/context/WebSocketContext.tsx:28-30 | the state becomes `CloseRef` of it |
| RealtimeClient.WebSocketProvider.ConnectForUserNow | frontend/src/context/WebSocketContext.tsx:26-119 | the state becomes `ConnectForUser` of it |
| RealtimeClient.WebSocketProvider.OnOpen | frontend/src/context/WebSocketContext.tsx:55-58 | the state takes the open step (see `RealtimeClient.OpenedStep`) |
| RealtimeClient.OpenedStep | frontend/src/context/WebSocketContext.tsx:55-58 | the open step marks that socket open and the provider connected and changes nothing else, also for a superseded socket |
| RealtimeClient.WebSocketProvider.OnMessage | frontend/src/context/WebSocketContext.tsx:60-97 | the state takes the message step |
| RealtimeClient.WebSocketProvider.OnClose | frontend/src/context/WebSocketContext.tsx:99-111 | the state takes the close step |
| RealtimeClient.WebSocketProvider.OnError | frontend/src/context/WebSocketContext.tsx:113-116 | the state takes the error step (see `RealtimeClient.ErrorStep`) |
| RealtimeClient.ErrorStep | frontend/src/context/WebSocketContext.tsx:113-116 | the error step only starts closing its socket: connection flag, reference and timers unchanged, and its close event can follow |
| RealtimeClient.WebSocketProvider.OnTimer | frontend/src/context/WebSocketContext.tsx:106-109 | the state takes the timer step |
| RealtimeClient.WebSocketProvider.CleanupNow | frontend/src/context/WebSocketContext.tsx:131-138 | the state becomes `Cleanup` of it |
| RealtimeClient.WebSocketProvider.RunEffect | frontend/src/context/WebSocketContext.tsx:121-130 | the state becomes `Effect` of it |
| RealtimeClient.WebSocketProvider.SetAuth | frontend/src/context/WebSocketContext.tsx:121-139 | a new token reruns the effect after the cleanup |
| RealtimeClient.WebSocketProvider.Unmount | frontend/src/context/WebSocketContext.tsx:131-138 | unmounting runs only the cleanup |
| Auth.Load | frontend/src/context/AuthContext.tsx:26-27 | a page load restores the token from storage and has no user |
| Auth.LoginState | frontend/src/context/AuthContext.tsx:43-56 | a success stores the token in state and storage and sets a mock student user; a failure changes nothing |
| Auth.LogoutState | frontend/src/context/AuthContext.tsx:62-66 | logout leaves no token, no user and nothing stored |
| Auth.ReloadKeepsTokenOnly | frontend/src/context/AuthContext.tsx:26-56 | a reload after login keeps the token but loses the user |
| Auth.LogoutSurvivesReload | frontend/src/context/AuthContext.tsx:62-66 | after logout a reload stays logged out |
| Auth.AuthProvider.constructor | frontend/src/context/AuthContext.tsx:26-27 | the first render's state is `Load` of storage |
| Auth.AuthProvider.Login | frontend/src/context/AuthContext.tsx:43-56 | the state becomes `LoginState`, and the call throws exactly on failure |
| Auth.AuthProvider.Logout | frontend/src/context/AuthContext.tsx:62-66 | the state becomes `LogoutState` |
| Auth.Protected | frontend/src/components/ProtectedRoute.tsx:5-17 | loading first, then the login redirect; the page exactly when not loading and authenticated |
| Auth.StudentRoot | frontend/src/App.tsx:12-18 | login redirect when not authenticated; dashboard exactly for a student user; otherwise access denied |
| Auth.AdminRoot | admin/src/App.tsx:9-14 | login redirect when not authenticated; dashboard exactly for an admin user; otherwise access denied |
| Auth.StudentRoute | frontend/src/App.tsx:28-44 | matching ignores ASCII case and trailing slashes; the dashboard and job pages are protected; the root redirects by role; other paths match nothing; no page but login renders unauthenticated |
| Auth.AdminRoute | admin/src/App.tsx:21-34 | matching ignores ASCII case and trailing slashes; the dashboard is protected, "/admin" redirects to it, the root redirects by role, other paths match nothing |
| Auth.TrailingSlashSameRoute | frontend/src/App.tsx:28-44 | a trailing slash does not change which route a path matches |
| Auth.CaseSameRoute | frontend/src/App.tsx:28-44 | lower-casing a path does not change which route it matches |
| Auth.NoLoadingView | frontend/src/context/AuthContext.tsx:13-21 | the context has no loading field, so no route ever shows the loading view |
| Auth.AdminPathRedirects | admin/src/App.tsx:24-31 | "/admin" ends at the portal exactly when authenticated, else at the login page |
| Auth.LoginThenDashboard | frontend/src/App.tsx:12-35 | right after login, "/" goes to the dashboard, which renders |
| Auth.ReloadDeniesRoot | frontend/src/App.tsx:12-18 | after a reload, "/" shows access denied while the dashboard still renders |
| Auth.LoggedOutGoesToLogin | frontend/src/App.tsx:28-44 | logged out, every path that does not route to the login page redirects to login or matches nothing |
| Navbar.AfterFetch | frontend/src/components/StudentNavbar.tsx:55-62 | a fetch replaces the list; a failure keeps it |
| Navbar.RefetchOn | frontend/src/components/StudentNavbar.tsx:30-36 | the bell refetches on exactly the events on which the job list refetches applications |
| Navbar.UnreadCount | frontend/src/components/StudentNavbar.tsx:83 | the number of unread notifications; zero exactly when all are read |
| Navbar.MarkAllShown | frontend/src/components/StudentNavbar.tsx:120 | the mark-all button shows exactly when some notification is unread |
| Navbar.MarkOneLocal | frontend/src/components/StudentNavbar.tsx:67 | only notifications with the id become read |
| Navbar.MarkOneUnread | frontend/src/components/StudentNavbar.tsx:67-83 | the badge drops by exactly the number of unread notifications with that id |
| Navbar.HandleMarkRead | frontend/src/components/StudentNavbar.tsx:64-71 | the local flag flips only after the request succeeds |
| Navbar.ClickItem | frontend/src/components/StudentNavbar.tsx:138 | clicking an unread item sends one request; clicking a read one does nothing |
| Navbar.MarkAllLocal | frontend/src/components/StudentNavbar.tsx:122 | every notification is read locally, whatever the request does |
| Navbar.MarkAllClearsBadge | frontend/src/components/StudentNavbar.tsx:83-122 | after mark-all the badge is zero |
| Navbar.MarkOneIdempotent | frontend/src/components/StudentNavbar.tsx:67 | marking twice changes nothing the second time |
| Navbar.ProfileClick | frontend/src/components/StudentNavbar.tsx:73-81 | the profile tab when there is a tab handler, else the dashboard; the menu closes |
| StudentPortal.TabForHash | frontend/src/pages/StudentPortal.tsx:18-22 | "#profile" opens the profile tab; any other hash keeps the tab |
| StudentPortal.PageCount | frontend/src/pages/StudentPortal.tsx:305 | the ceiling of n/6: enough pages for all jobs and none to spare |
| StudentPortal.PageJobs | frontend/src/pages/StudentPortal.tsx:259 | page p shows jobs 6(p-1) onward, at most six; non-empty exactly for pages in range |
| StudentPortal.PagesCoverJobs | frontend/src/pages/StudentPortal.tsx:259 | the first k pages together are the first 6k jobs in order |
| StudentPortal.AllPagesAreTheList | frontend/src/pages/StudentPortal.tsx:259-305 | all pages together are the whole list |
| StudentPortal.PagingStaysInRange | frontend/src/pages/StudentPortal.tsx:295-310 | the buttons keep the page in range, and each is disabled exactly when it would not move |
| StudentPortal.ControlsShown | frontend/src/pages/StudentPortal.tsx:295 | the controls show exactly when there are at least two pages |
| StudentPortal.PrevPage | frontend/src/pages/StudentPortal.tsx:298 | never below page 1, never forward, one back from any later page |
| StudentPortal.NextPage | frontend/src/pages/StudentPortal.tsx:308 | never past the page count; one on before the last page, the last page from there on |
| StudentPortal.PrevDisabled | frontend/src/pages/StudentPortal.tsx:299 | on a page in range, disabled exactly when the button would not move |
| StudentPortal.NextDisabled | frontend/src/pages/StudentPortal.tsx:309 | on a page in range, disabled exactly when the button would not move |
| StudentPortal.NonEmpty | frontend/src/pages/StudentPortal.tsx:91-93 | an empty filter value is dropped |
| StudentPortal.CleanFilters | frontend/src/pages/StudentPortal.tsx:90-93 | empty filters are dropped, non-empty ones are sent unchanged, and the sort order is always sent |
| StudentPortal.InitialQuery | frontend/src/pages/StudentPortal.tsx:46-51 | the initial filters send only the "newest" sort order |
| StudentPortal.OnTabOrFilters | frontend/src/pages/StudentPortal.tsx:77-83 | the jobs tab refetches jobs and goes to page 1; the applications tab refetches applications |
| StudentPortal.OnEvent | frontend/src/pages/StudentPortal.tsx:26-37 | job_posted refetches jobs and status_updated refetches applications; the page is kept |
| StudentPortal.JobButtonLabel | frontend/src/pages/StudentPortal.tsx:278-283 | "View Status" exactly when one of the student's applications is for the job |
| StudentPortal.AfterPasswordChange | frontend/src/pages/StudentPortal.tsx:164-166 | the form is cleared only after a successful change |
| AdminPortal.AfterFetchJobs | admin/src/pages/AdminPortal.tsx:35-48 | the answer sorted newest first; the newest job selected when nothing was; a failure changes nothing |
| AdminPortal.FetchedJobsNewestFirst | admin/src/pages/AdminPortal.tsx:39-44 | the list is a permutation of the answer, newest first, and the default selection is a newest job |
| AdminPortal.OnSelection | admin/src/pages/AdminPortal.tsx:27-33 | a selection loads its job's applications; no selection clears them |
| Common.AfterRefetch | admin/src/pages/AdminPortal.tsx:50-61 | the answer, or the old list on failure; loading ends either way |
| AdminPortal.PostJob | admin/src/pages/AdminPortal.tsx:63-85 | a success clears the form, refetches and shows the dashboard; a failure keeps the form and the tab |
| AdminPortal.ScoreTier | admin/src/pages/AdminPortal.tsx:87-91 | green at 80 and above, yellow from 60 to below 80, red below 60 |
| AdminPortal.TierMonotone | admin/src/pages/AdminPortal.tsx:87-91 | a higher score never gets a lower tier |
| AdminPortal.DashboardScoreClass | admin/src/pages/AdminPortal.tsx:87-91 | each tier's classes |
| AdminPortal.AvatarLetter | admin/src/pages/AdminPortal.tsx:265 | one character: the name's first, or "U" |
| AdminPortal.DisplayName | admin/src/pages/AdminPortal.tsx:269 | the name, or "User #" and the student id |
| AdminPortal.FallbackNamesDistinct | admin/src/pages/AdminPortal.tsx:269 | two unnamed students with different ids are shown differently |
| AdminPortal.FetchOnTab | frontend/src/pages/AdminPortal.tsx:16-20 | the applications are fetched on every tab but the job form |
| AdminPortal.LegacyPostJob | frontend/src/pages/AdminPortal.tsx:34-48 | a success alerts, clears the form and switches to the applications tab, which fetches; a failure alerts and keeps the form |
| AdminPortal.LegacyScoreClass | frontend/src/pages/AdminPortal.tsx:50-54 | the same tiers with shorter classes |
| AdminStudentPortal.LoadData | admin/src/pages/StudentPortal.tsx:18-34 | all three answers replace the data, or nothing does; loading ends |
| AdminStudentPortal.UploadCv | admin/src/pages/StudentPortal.tsx:36-56 | no file does nothing; a non-PDF is refused before any request; otherwise the answer replaces the user |
| AdminStudentPortal.Apply | admin/src/pages/StudentPortal.tsx:58-74 | without a CV: a prompt and no request; a declined confirmation does nothing; the request is sent exactly otherwise, and a success reloads |
| AdminStudentPortal.HasApplied | admin/src/pages/StudentPortal.tsx:76-78 | true exactly when some application of the student is for the job |
| AdminStudentPortal.StatusToken | admin/src/pages/StudentPortal.tsx:80-88 | none exactly when not applied; otherwise the score of the first application for the job |
| AdminStudentPortal.ApplyButton | admin/src/pages/StudentPortal.tsx:166-177 | disabled "Applied" exactly when applied, else "Apply Now" |
| AdminStudentPortal.AppliedJobLocked | admin/src/pages/StudentPortal.tsx:76-88 | once the new application is loaded, its job's button is disabled and its token shows a score |
| JobDetails.LoadData | frontend/src/pages/JobDetails.tsx:25-52 | a failed request shows "Job not found" and goes to the dashboard, keeping a job already received; otherwise the first application for the job sets the applied flag and becomes the page's application, and none changes neither; loading ends |
| JobDetails.Apply | frontend/src/pages/JobDetails.tsx:54-75 | nothing without a job; a toast and no request without a CV name; otherwise a request: success sets the applied flag, shows "Application submitted successfully!" and reloads; failure shows the server's detail or "Failed to apply"; job, loading, redirect and application never change |
| JobDetails.LoadRuns | frontend/src/pages/JobDetails.tsx:19-23 | the data loads exactly when there is a route id and a user |
| JobDetails.ApplyButtonMatchesHandler | frontend/src/pages/JobDetails.tsx:54-75 | with a job loaded and no request in flight, the button is disabled exactly when clicking it would send no request |
| StudentDashboard.KindOf | admin/src/pages/StudentDashboard.tsx:45-59 | approved, rejected, or anything else |
| StudentDashboard.StatusColor | admin/src/pages/StudentDashboard.tsx:45-51 | green for approved, red for rejected, yellow otherwise |
| StudentDashboard.StatusIcon | admin/src/pages/StudentDashboard.tsx:53-59 | check for approved, cross for rejected, clock otherwise |
| StudentDashboard.ColourAndIconAgree | admin/src/pages/StudentDashboard.tsx:45-59 | two statuses share a colour exactly when they share an icon |
| StudentDashboard.Capitalize | admin/src/pages/StudentDashboard.tsx:130 | same length; first character upper-cased, the rest unchanged |
| StudentDashboard.BadgeTexts | admin/src/pages/StudentDashboard.tsx:130 | the stored statuses read "Pending", "Approved" and "Rejected" |
| StudentDashboard.CapitalizeIdempotent | admin/src/pages/StudentDashboard.tsx:130 | capitalising twice is capitalising once |
| StudentDashboard.Submit | admin/src/pages/StudentDashboard.tsx:29-43 | a success closes the modal, clears the form and refetches; a failure alerts and keeps both |

## Left out

- Presentation: JSX layout, styling, the theme toggle, the click-outside handler of the notification menu, and the toast icons.
- HTTP plumbing: the API wrapper modules, and `register` in the authentication context, which only forwards to the API.
- The login, register and password-recovery pages.
- Outside the core: the server's WebSocket endpoint, the e-mail utility (SMTP), the storage client's internals, the seed, debug and test scripts, and `main.py`.
- Foreign primitives are parameters; what they compute is not modelled: JWT decoding, bcrypt, SHA-256, PDF text extraction, the storage signer, `requests.get` with BeautifulSoup, `secrets.token_urlsafe`, `EmailStr` validation, and `JSON.parse` (given as an `Option`).
- The HTML document itself: the scraper sees a page through what its selectors return. The removal of script, style, nav, header and footer elements is folded into those answers.
- The exception path of the scraper: any exception yields the empty job. Only the fetch failure is modelled as such.
- Clocks and timers: `datetime.utcnow`, `Date.now`, the 3000 ms reconnect delay and the 30 s notification polling interval. Time is a parameter, and a timer fires when the environment says so.
- Concurrency: interleaved requests, and the asynchrony of React state updates. Each handler is one atomic step.
- Ats.Score: the score is an exact real, min(120·m/n, 100). Float arithmetic and `round(…, 1)` are not modelled.
- Ats.Tokens: lower-casing covers ASCII letters only. White space is Python's full set for `str.split()` and `str.strip()` (\t-\r, \x1c-\x20, \x85, \xa0, \u1680, \u2000-\u200a, \u2028, \u2029, \u202f, \u205f, \u3000), which `Scraper.OgTitle` strips too.
- Stable order: the model puts rows created at the same instant in table order, where SQL's ORDER BY leaves the order of ties open. The admin dashboard's sort keeps ties in answer order, as `Array.prototype.sort` does.
- Realtime.ConnectionManager.Broadcast: the ordering of sends across users follows the dictionary's order in Python, which the model leaves open. It states only which sends happen.
- Negative `skip` or `limit` values are excluded by their `nat` types. The source passes them to SQL as they are.
- Ids and keys: one counter hands out the keys of all tables; the database has one sequence per table. A role string outside the enumeration cannot be stored.
- Deps.GetCurrentUser: takes the bearer token as a string. The 401 that `OAuth2PasswordBearer` answers for a missing or non-Bearer Authorization header (deps.py:14-16) comes before it and is not modelled.
- `read_user_me` returns the result of `Deps.GetCurrentActiveUser` unchanged, so it has no member of its own. `get_user_cv` has no body and is not modelled.
- Users.UpdateMeResult: the endpoint does not check e-mail uniqueness. The UNIQUE column makes the commit fail, which the model states as a 500 with nothing stored. The exact database error text is not modelled.
- The student app's `Number(id)` of a non-numeric route id (NaN) is not modelled: job ids are natural numbers.
- JobDetails.Apply: the apply button's disabled state is a predicate of the user object's CV name. The user the login creates carries no CV name; no lemma ties the two.
- The admin app's own authentication context and route guard are not part of this model. Its routes take `authenticated` and `user` as inputs, and its guard is assumed to be the same as the student app's.
- StudentDashboard.Capitalize: upper-cases ASCII letters only. JavaScript's `toUpperCase` also upper-cases letters such as "é" and turns "ß" into "SS", so the length is kept only in the model.
- AdminPortal.AvatarLetter: takes the name's first Unicode character, where `charAt(0)` takes its first UTF-16 code unit. The two differ for characters outside the Basic Multilingual Plane.
- Auth.StudentRoute, Auth.AdminRoute: percent-decoding of the path and case folding outside ASCII are not modelled.
