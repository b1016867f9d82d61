# CivicEye core, modelled in Dafny

CivicEye lets citizens report civic issues (potholes, leaks, broken lights).
Each report is routed to a municipal department, and departments and an admin
move it through the statuses Pending, In Progress and Resolved. This project
models the rule-bearing core of that system and proves properties of it:

- **Routing** (`routing.dfy`): the category keyword chain that picks a report's
  department, the directory fallback, and "General Department" as the last
  resort.
- **Data model** (`models.dfy`): the Report schema, with the status enum,
  the defaults and the required fields, and the Department directory entry.
- **Report store** (`storage.dfy`): a `ReportStore` class over a map from
  report id to record. Ids are issued in creation order, so "newest first"
  is descending id.
  - A save validates the record as Mongoose does: a status outside the enum
    makes the save fail.
  - Two ghost logs record the foreign effects: image handles destroyed at the
    image host, and emails sent. Whether the image host accepts a destroy is
    an input of the handler that asks for it.
- **Handlers** of the citizen, admin and department APIs
  (`report_controller.dfy`, `admin_controller.dfy`, `department_routes.dfy`,
  `department_controller.dfy`). Each takes the caller and the request and
  returns the response: `Ok`, `Created`, `BadRequest`, `Unauthorized`,
  `Forbidden`, `NotFound` or `ServerError`.
  - The mounted department route and the unmounted department controller are
    both modelled, because their rules differ.
  - `scenarios.dfy` proves what follows from having both: the admin's Pending
    lock can be bypassed through the department route.
- **Department fuzzy matching** (`department_match.dfy`): an account name has
  its first "department" removed and is trimmed. The rest is used as a
  case-insensitive pattern against the report's department.
- **Analytics** (`analytics.dfy`): the status counts, and the group-by-category
  sorted by count, largest first.
- **Accounts** (`accounts.dfy`): the register and login decisions.
- **Seeding** (`seed.dfy`): the email and password derived from a
  department's display name.
- **Middleware** (`middleware.dfy`): the upload filter with its size limit,
  and the error handler.
- **Client-side rules**:
  - `create_report_page.dfy`: the report form's validation and the
    multipart body it sends.
  - `dashboard.dfy`: the department dashboard's counts, filter and
    new-issue notice.
  - `chat_window.dfy`: the live chat panel.
  - `chatbot.dfy`: the assistant's keyword replies.

Conventions of the model:

- The JavaScript operations the code relies on live in `text.dfy`: lower-casing,
  `includes`, `startsWith`, `trim`, and a first-occurrence case-insensitive
  replace.
- Lower-casing is ASCII only. The regular expressions built from a category or
  an account name are read as literal case-insensitive substring tests.
- A missing string is `""`. A missing optional value is `None`.
- Where the design description and the code disagree, the model follows the
  code:
  - deleting a report releases only the main image handle, never the proof
    image's;
  - the analytics count "In-Progress", a status the schema never stores, so
    that count is always 0 (`Analytics.InProgressNeverCounted`);
  - votes are a read-modify-write, modelled sequentially.

## Model

| member | source | states |
|---|---|---|
| Routing.RouteCategory | backend/src/controllers/reportController.js:22-41 | the department is "General Department", one of the five keyword departments, or the name of a directory entry |
| Routing.KeywordDepartment | backend/src/controllers/reportController.js:25-34 | a keyword department is one of the five; there is none exactly when none of road, infrastructure, water, electric, sanit, health occurs in the lower-cased category |
| Routing.FirstNameContaining | backend/src/controllers/reportController.js:37-40 | the index of the first directory entry whose name contains the category case-insensitively; no earlier entry does; None iff no entry does |
| Routing.RuleOrder | backend/src/controllers/reportController.js:25-34 | first hit wins, in the order road or infrastructure, water, electric, sanit, health |
| Routing.WaterOutranksHealth | backend/src/controllers/reportController.js:25-28 | a category containing "water" goes to Roads & Infrastructure or Water Supply, never to Health |
| Routing.WaterHealthIssue | backend/src/controllers/reportController.js:25-28 | "Water Health Issue" is routed to "Water Supply" |
| Routing.ElectricalFault | backend/src/controllers/reportController.js:25-30 | "Electrical fault" is routed to "Electrical" |
| Routing.KeywordIgnoresDirectory | backend/src/controllers/reportController.js:25-34 | when a keyword hits, the directory's contents do not affect the result |
| Routing.FallbackToDirectory | backend/src/controllers/reportController.js:35-41 | with no keyword hit, the result is the first entry whose name contains the category, else "General Department" |
| Routing.RouteNeverEmpty | backend/src/controllers/reportController.js:22-41 | a non-empty category never routes to an empty department |
| Routing.DirectoryNameRoutesToDirectory | backend/src/controllers/reportController.js:35-41 | a directory name without a keyword routes to the name of an entry at or before its own position |
| Models.CreateReportRecord | backend/src/models/Report.js:5-28 | creation succeeds iff title and department are present; the record is schema-valid, Pending, category "general" by default, location type "Point" in [lng, lat] order, no votes or proof |
| Accounts.FindByEmail | backend/src/controllers/authController.js:16 | the first account with the email, or None when there is none |
| Accounts.FindById | backend/src/controllers/reportController.js:85 | the account with the id, or None when there is none |
| Accounts.SessionOf | backend/src/controllers/authController.js:26-32 | a session carries the account's id and a token issued for that id |
| Accounts.AuthUser | backend/src/controllers/authController.js:40-56 | Ok iff an account has the email and that account's password matches; an unknown email and a wrong password both give 401 with the same message; Ok returns that account's session |
| Accounts.LoginFindsTheAccount | backend/src/controllers/authController.js:44-56 | with unique emails, logging in as an existing account succeeds iff its password is given, and returns its session |
| Accounts.AccountStore.RegisterUser | backend/src/controllers/authController.js:8-32 | 400 when a field is missing; 400 "User already exists" for a known email, store unchanged; otherwise 201 with the new account's session, role defaulting to citizen, and the new account can log in |
| DepartmentMatch.Pattern | backend/src/routes/departmentReportRoutes.js:101 | a name without "department" is only trimmed; the pattern is never longer than the name |
| DepartmentMatch.MatchesDepartment | backend/src/routes/departmentReportRoutes.js:101-106 | a name that strips to the empty pattern matches every report; otherwise a match needs a department at least as long as the pattern |
| DepartmentMatch.PatternOfDepartment | backend/src/routes/departmentReportRoutes.js:101 | "Department" strips to the empty pattern |
| DepartmentMatch.PatternOfRoadsDepartment | backend/src/routes/departmentReportRoutes.js:101 | "Roads Department" strips to "Roads" |
| DepartmentMatch.RoadsDepartmentSeesRoadsReports | backend/src/routes/departmentReportRoutes.js:101-106 | the account "Roads Department" sees reports filed under "Roads & Infrastructure" |
| DepartmentMatch.OnlyFirstOccurrenceStripped | backend/src/routes/departmentReportRoutes.js:101 | only the first "department" is removed: "Department Department" gives "Department" |
| DepartmentMatch.PatternOfSuffixedName | backend/src/routes/departmentReportRoutes.js:101 | "X Department" strips to X when X has no "department" and no outer blanks |
| DepartmentMatch.SuffixedNameMatchesStem | backend/src/routes/departmentReportRoutes.js:101-106 | the account "X Department" sees the reports filed under X |
| DepartmentMatch.PlainNameMatchesItself | backend/src/routes/departmentReportRoutes.js:101-106 | an account named exactly like a department sees that department's reports |
| Storage.Select | backend/src/controllers/reportController.js:147 | exactly the stored records matching the query, newest first |
| Storage.Matches | backend/src/controllers/adminController.js:13-18 | the filter each handler gives Report.find; an empty filter keeps every record, an owner or exact department filter keeps exactly the records with that owner or department |
| Storage.ReportStore.Find | backend/src/controllers/adminController.js:18-20 | exactly the stored records matching the filter, newest first |
| Storage.ReportStore.Save | backend/src/models/Report.js:21-25 | the save succeeds iff the record passes validation (status in the enum); only then is the record replaced |
| Storage.ReportStore.Insert | backend/src/controllers/reportController.js:66-82 | a new record gets a fresh id, and nothing else changes |
| Storage.ReportStore.Remove | backend/src/controllers/reportController.js:226 | the record is removed, and nothing else changes |
| Storage.ReportStore.Destroy | backend/src/controllers/reportController.js:194 | succeeds iff the image host accepts the call; only then is the handle logged as destroyed, once; the records are untouched |
| Storage.ReportStore.SendEmail | backend/src/controllers/reportController.js:86-97 | the mails are logged in order, and the records are untouched |
| ReportController.FindDepartmentUser | backend/src/controllers/reportController.js:100-103 | the first department account whose name contains the department, or None when there is none |
| ReportController.OwnerOrAdmin | backend/src/controllers/reportController.js:186-188 | an admin may act on any report; anyone else only on the reports they own |
| ReportController.MailTo | backend/src/controllers/reportController.js:86-92 | one mail to the account's address iff it has one, otherwise none |
| ReportController.CreationEmails | backend/src/controllers/reportController.js:84-116 | at most two mails, each to the non-empty address of a known account, with the submitted or the new-issue subject; the owner's comes first when the owner has an address |
| ReportController.CreateReport | backend/src/controllers/reportController.js:12-131 | 400 with the store unchanged when title, description or category is missing; 500 when the upload fails; otherwise 201 with a new Pending record owned by the caller, filed under the routed (never empty) department, and the two notices logged |
| ReportController.GetUserReports | backend/src/controllers/reportController.js:138-153 | 403 iff the caller is neither admin nor that user; otherwise exactly that user's reports, newest first |
| ReportController.VoteReport | backend/src/controllers/reportController.js:160-173 | 404 for an unknown id; otherwise the count goes up by exactly one and is returned |
| ReportController.DeleteImageFromReport | backend/src/controllers/reportController.js:180-204 | checks 404, then 403, then 400 in that order; when the image host rejects the destroy, 500 with the record unchanged; otherwise the handle is destroyed once and only the two image fields are cleared |
| ReportController.DeleteReport | backend/src/controllers/reportController.js:211-232 | 404 before the ownership check, then 403; when the image host rejects the destroy, 500 and the record stays; otherwise the main image handle (if any) is destroyed and the record removed; the proof handle is never released |
| AdminController.GetAllReports | backend/src/controllers/adminController.js:11-26 | exactly the reports matching status and category, each applied only when supplied, newest first |
| AdminController.UpdateReportStatus | backend/src/controllers/adminController.js:31-77 | 404 first; 403 and no change while Pending; a rejected image destroy gives 500 with nothing saved or mailed; otherwise status (when supplied), lastUpdatedBy and the optional image removal, then the owner is mailed; an invalid status gives 500 with the record unchanged |
| AdminController.GetAnalytics | backend/src/controllers/adminController.js:82-98 | the counts never exceed the total; the "In-Progress" count is 0; byCategory has distinct categories whose counts sum to the total, in non-increasing order |
| Analytics.CountStatus | backend/src/controllers/adminController.js:85-87 | a status count never exceeds the number of reports |
| Analytics.StatusCountsBounded | backend/src/controllers/adminController.js:84-87 | counts of three different statuses add up to at most the total, and exactly to it when every report has one of them |
| Analytics.InProgressNeverCounted | backend/src/controllers/adminController.js:86 | on schema-valid records the "In-Progress" count is 0 |
| Analytics.AddOne | backend/src/controllers/adminController.js:90 | adding one report raises exactly its category's count by one and keeps categories distinct |
| Analytics.Tally | backend/src/controllers/adminController.js:89-90 | one entry per distinct category, each count equal to that category's occurrences, summing to the number of reports |
| Analytics.Insert | backend/src/controllers/adminController.js:91 | insertion keeps counts non-increasing, the same entries and the same sum |
| Analytics.SortByCountDesc | backend/src/controllers/adminController.js:91 | the sorted groups are a permutation of the input in non-increasing count order |
| Analytics.ByCategoryFacts | backend/src/controllers/adminController.js:89-92 | byCategory has distinct categories, every category present, positive counts equal to occurrences, summing to the total, in non-increasing order |
| Analytics.SummaryFacts | backend/src/controllers/adminController.js:84-94 | on schema-valid records the total is the number of reports, the counts are bounded by it, and in-progress is 0 |
| DepartmentRoutes.GetDepartmentReports | backend/src/routes/departmentReportRoutes.js:91-117 | 403 iff the caller is neither department nor admin; otherwise exactly the reports whose department matches the fuzzy pattern, newest first (an empty list on no match); an empty pattern returns every report |
| DepartmentRoutes.DepartmentOrAdmin | backend/src/routes/departmentReportRoutes.js:96-98 | the role check passes exactly department accounts and admins; a citizen never passes |
| DepartmentRoutes.PatchReport | backend/src/routes/departmentReportRoutes.js:121-155 | 404 before the role check, then 403; no Pending gate and no ownership check; proof fields only with a file, status only when sent; lastUpdatedBy untouched; an invalid status gives 500 with no change |
| DepartmentController.GetDepartmentReports | backend/src/controllers/departmentController.js:7-19 | exactly the reports whose department equals the name, newest first |
| DepartmentController.MayUpdate | backend/src/controllers/departmentController.js:28-30 | an admin always passes; anyone else passes iff the report's department is exactly their name, whatever their role |
| DepartmentController.UpdateDepartmentReport | backend/src/controllers/departmentController.js:22-66 | 404 first; 403 unless the department equals the caller's name or the caller is admin; proof fields only with a file, status only when sent; the owner is emailed after a successful save |
| DepartmentController.SuffixedAccountRefused | backend/src/controllers/departmentController.js:28-30 | an account "Electrical Department" is refused on a report filed under "Electrical" |
| Seed.BlankNonAlnum | backend/seedAllDepartments.js:31 | each character outside [a-zA-Z0-9] becomes a blank, all others are kept, length unchanged |
| Seed.SplitOnSpace | backend/seedAllDepartments.js:31 | at least one piece, and no piece contains a space |
| Seed.NonEmpty | backend/seedAllDepartments.js:31 | exactly the non-empty pieces, never more than were given |
| Seed.Join | backend/seedAllDepartments.js:31 | pieces without a space join into a string without a space |
| Seed.Stem | backend/seedAllDepartments.js:31-32 | the shared stem holds only a-z and 0-9 and is never longer than the name |
| Seed.MakeEmailFromName | backend/seedAllDepartments.js:29-33 | the address is the stem followed by "@gmail.com": its only '@' sits right after the stem |
| Seed.MakePasswordFromName | backend/seedAllDepartments.js:35-38 | the password is the stem followed by "@123": its only '@' sits right after the stem |
| Seed.KeepAlnum | backend/seedAllDepartments.js:31 | the reference reading of the stem: only letters and digits, never longer |
| Seed.SplitJoinDropsSpaces | backend/seedAllDepartments.js:31 | splitting on " ", dropping empty pieces and joining removes exactly the blanks |
| Seed.DropSpacesOfBlanked | backend/seedAllDepartments.js:31 | blanking then dropping blanks keeps exactly the letters and digits |
| Seed.StemIsLowerAlnum | backend/seedAllDepartments.js:31-32 | the stem is the lower-cased letters and digits of the name, so it holds only a-z and 0-9 |
| Seed.StemIdempotent | backend/seedAllDepartments.js:31 | deriving the stem of a stem changes nothing |
| Seed.EmailAndPasswordShareStem | backend/seedAllDepartments.js:29-38 | email and password both start with the same stem, made of a-z and 0-9 |
| Seed.KeepAlnumRoads | backend/seedAllDepartments.js:10 | "Roads & Infrastructure" keeps "RoadsInfrastructure" |
| Seed.RoadsCredentials | backend/seedAllDepartments.js:29-38 | "Roads & Infrastructure" gives roadsinfrastructure@gmail.com and roadsinfrastructure@123 |
| UploadMiddleware.FileFilter | backend/src/middleware/uploadMiddleware.js:8-15 | exactly one decision; accept iff the mimetype starts with "image/", otherwise "Only image files are allowed!" |
| UploadMiddleware.ReceiveFile | backend/src/middleware/uploadMiddleware.js:8-17 | stored iff an image within 5 MiB; refused iff not an image |
| UploadMiddleware.LimitBoundary | backend/src/middleware/uploadMiddleware.js:17 | 5242880 bytes is accepted, one more byte is not |
| ErrorHandler.HandleError | backend/src/middleware/errorHandler.js:3-10 | status 200 becomes 500, any other is kept; the message falls back to "Server Error"; in production the stack is the placeholder |
| Text.RemoveFirstCI | backend/src/routes/departmentReportRoutes.js:101 | without a case-insensitive occurrence the string is unchanged; otherwise exactly the first occurrence is cut out |
| Text.Lower | backend/src/controllers/reportController.js:23 | same length; each capital A-Z becomes a lower-case letter, every other character is kept |
| Text.Trim | frontend/src/pages/CreateReport.jsx:99 | empty iff the string is all whitespace; otherwise a slice with whitespace only outside it and none at its ends |
| CreateReportPage.FormErrors | frontend/src/pages/CreateReport.jsx:97-101 | an error is recorded for title, description or address exactly when its trimmed value is empty, and for nothing else |
| CreateReportPage.FormValidIff | frontend/src/pages/CreateReport.jsx:102-103 | validation passes iff the three trimmed values are non-empty |
| CreateReportPage.ValidateForm | frontend/src/pages/CreateReport.jsx:97-104 | records the errors and answers true iff the three trimmed values are non-empty |
| CreateReportPage.FormEntries | frontend/src/pages/CreateReport.jsx:112-118 | the five form fields in order; the image only when one was chosen; with a selection, department and category both equal its name |
| CreateReportPage.BodyOfEntries | frontend/src/pages/CreateReport.jsx:112-118 | the server reads back the title, description, address and coordinates as entered, and the selected department's name as category (or none) |
| CreateReportPage.ValidFormPassesServerCheck | frontend/src/pages/CreateReport.jsx:109-118 | a validated form sent with a selected department passes the server's required-field check |
| CreateReportPage.NoDepartmentNoCategory | frontend/src/pages/CreateReport.jsx:115-118 | without a selected department the body carries no category |
| CreateReportPage.Page.constructor | frontend/src/pages/CreateReport.jsx:15-31 | the page starts empty at step 1 with nothing sent |
| CreateReportPage.Page.SelectDepartment | frontend/src/pages/CreateReport.jsx:198-199 | a click on a card selects the department and moves to step 2 |
| CreateReportPage.Page.HandleSubmit | frontend/src/pages/CreateReport.jsx:106-139 | the errors are recorded; nothing is sent when invalid; otherwise exactly one body is sent and submitting ends false |
| CreateReportPage.Page.SuccessTimeout | frontend/src/pages/CreateReport.jsx:123-133 | form, image, selection, step, map flags and errors return to their initial values |
| Dashboard.StatsOf | department-dashboard/src/pages/Dashboard.jsx:97-102 | the total is the list length; the three counts sum to at most the total, and exactly to it when every status is in the enum |
| Dashboard.FilteredReports | department-dashboard/src/pages/Dashboard.jsx:105-110 | a report is kept iff its status matches (or the filter is "All") and its title or description contains the query case-insensitively |
| Dashboard.FilteredIsSubsequence | department-dashboard/src/pages/Dashboard.jsx:105-110 | the kept reports are an order-preserving sublist |
| Dashboard.AllWithEmptyQueryKeepsEverything | department-dashboard/src/pages/Dashboard.jsx:106-108 | filter "All" with an empty query keeps every report |
| Dashboard.TitleSearchFindsReport | department-dashboard/src/pages/Dashboard.jsx:107-108 | searching for a report's own title finds it |
| Dashboard.DashboardView.ApplyFetch | department-dashboard/src/pages/Dashboard.jsx:38-43 | the notice fires iff the count grew and the previous count was not 0; then the list and the count are replaced |
| Dashboard.FirstLoadIsSilent | department-dashboard/src/pages/Dashboard.jsx:38 | the first load never raises the notice |
| Dashboard.RefreshAfterLoad | department-dashboard/src/pages/Dashboard.jsx:38-43 | a refresh run by the current render after a non-empty load raises the notice iff it returns more reports |
| ChatWindow.SenderName | department-dashboard/src/components/ChatWindow.jsx:36-40 | a department signs with its name; anyone else with a label starting "Citizen", exactly "Citizen" without a user |
| ChatWindow.CitizenLabelInjective | department-dashboard/src/components/ChatWindow.jsx:38 | two named citizens share a label iff they share a name |
| ChatWindow.LabelCollisionDropsMessage | department-dashboard/src/components/ChatWindow.jsx:20-25 | a department named "Citizen (x)" has the same label as citizen x, so the de-duplication drops its messages |
| ChatWindow.ChatPanel.SendMessage | department-dashboard/src/components/ChatWindow.jsx:42-57 | whitespace-only text changes nothing; otherwise exactly one {room, sender, text} is shown and emitted and the input is cleared |
| ChatWindow.ChatPanel.ReceiveMessage | department-dashboard/src/components/ChatWindow.jsx:20-25 | a message is appended iff its sender differs from the local label |
| ChatWindow.ChatPanel.LoadMessages | department-dashboard/src/components/ChatWindow.jsx:16-18 | the history replaces the whole list |
| ChatWindow.ChatPanel.Type | department-dashboard/src/components/ChatWindow.jsx:80 | typing sets only the input |
| ChatWindow.SendThenEcho | department-dashboard/src/components/ChatWindow.jsx:20-57 | a sent message echoed back by the server is shown exactly once |
| ChatWindow.BlankInputSendsNothing | department-dashboard/src/components/ChatWindow.jsx:43 | whitespace-only input shows nothing |
| Chatbot.BotReply | frontend/src/components/Chatbot.jsx:32-39 | the first of "report", "status", "location", "help" found in the lower-cased input decides the reply; the fallback iff none occurs |
| Chatbot.FallbackNamesAKeyword | frontend/src/components/Chatbot.jsx:34-38 | typing the fallback text back gets the report reply |
| Chatbot.HelpAnswered | frontend/src/components/Chatbot.jsx:33-37 | "Help!" gets the help reply |
| Chatbot.Conversation.constructor | frontend/src/components/Chatbot.jsx:8-12 | the conversation starts with the single greeting |
| Chatbot.Conversation.Type | frontend/src/components/Chatbot.jsx:102 | typing sets only the input |
| Chatbot.Conversation.HandleSend | frontend/src/components/Chatbot.jsx:14-20 | whitespace-only input changes nothing; otherwise one user message is appended, the input cleared and a reply scheduled; every user message stays answered or pending |
| Chatbot.Conversation.DeliverReply | frontend/src/components/Chatbot.jsx:22-30 | the oldest pending input gets exactly one bot message equal to its reply, and typing ends |
| Chatbot.AskOnce | frontend/src/components/Chatbot.jsx:14-30 | one question gives greeting, question, reply, in that order |
| Scenarios.PendingLockBypass | backend/src/controllers/adminController.js:41-45 | an admin is refused on a Pending report, yet a department account then resolves it through the department route |
| Scenarios.ElectricalAccountSeesElectricalReports | backend/src/routes/departmentReportRoutes.js:101-106 | the seeded "Electrical Department" account lists the reports routed to "Electrical", while the unmounted controller would refuse it their update |
| Scenarios.NonImageUploadIsServerError | backend/src/middleware/uploadMiddleware.js:10-11 | a non-image upload is refused, and the error handler answers 500 with the filter's message |

## Left out

- Image hosting, email and the database are not called. Destroyed image handles and sent emails are ghost logs on the store. An image upload is a parameter of the handler: no file, an uploaded file, or a failed upload. Whether the image host accepts a destroy is a boolean parameter.
- A database error during a find, a save or a delete (other than a failed validation) is not modelled; the handlers' catch-all 500 is modelled only for the upload, the image destroy and the status validation.
- A proof image replaced by a new one is never destroyed. The model records this by never logging its handle.
- The Socket.IO relay of the chat is a network broadcast. The panel only logs what it emits.
- Coordinates arrive parsed: `parseFloat` is not modelled. A value that is absent or not a number is `None` and becomes 0.
- Lower-casing covers ASCII letters only. The patterns built from a category or an account name are literal substrings: regular-expression metacharacters in names are not modelled.
- ReportController.VoteReport: votes are sequential. Lost updates under concurrent votes are not modelled. Whether `votes` and the proof fields persist, although the schema does not declare them, is not modelled either.
- Password hashing and token signing are not modelled. A token is the account id it was issued for.
- The `protect` and `adminOnly` middleware are not modelled: the caller's id and role are inputs.
- The User model's own validation is not part of this model.
- A malformed id that makes the database throw, answered with 500, is not modelled. Ids are naturals.
- Ties in the category sort are not fixed: `Analytics.SortByCountDesc` keeps the order the grouping produced. The database's tie order is unspecified.
- The seed script's database loop (backend/seedAllDepartments.js:40-79) is not modelled, nor the descriptions and icons of the seeded departments.
- The React rendering, the timers and the geolocation lookup are not modelled. The 2.5 s reset after a submit and the chatbot's 1.2 s reply are methods the caller invokes.
- Dashboard.RefreshAfterLoad: holds only for a refresh run by the current render. The 30-second background refresh (department-dashboard/src/pages/Dashboard.jsx:54-60) runs the `fetchReports` of the render that started the interval, which saw a previous count of 0, so it never raises the notice.
- AdminController.GetAllReports: returns each record with its owner's id. The source populates the owner as its name and email (backend/src/controllers/adminController.js:19); the population is not modelled.
- Dashboard.DashboardView.ApplyFetch: reads the current previous count. The background refresh in the source runs a `fetchReports` captured when the effect started, which sees the count of that render. The effect is re-created only when the department or the open chat changes.
- The dashboard's `handleUpdate` is not modelled: it is a PATCH to the department route (`DepartmentRoutes.PatchReport`) followed by a refresh (`ApplyFetch`).
- The admin dashboard's "In-Progress" option (admin-dashboard/src/components/ReportTable.jsx:39) is not part of this model. Sending it fails the save, as `AdminController.UpdateReportStatus` shows for any status outside the enum.
