# Service-ticket dashboard: a Dafny model

The repository is a React dashboard, backed by Supabase, that a computer
repair shop uses to run its service tickets. Admins and technicians create
tickets, move them through a chain of status codes, assign technicians,
add remarks with file attachments, and send WhatsApp messages to
customers. Around the tickets it also keeps technicians and their daily
attendance, customers, antivirus licences with expiry dates, and a per-user
to-do list.

Most of the code is queries and rendering. The behaviour that can be stated
and proved lies in the small decisions the handlers make, and this project
models those decisions as pure Dafny functions over strings, sequences and
small datatypes:

- which page, menu and buttons a user of each role sees (`Routes`, `Sidebar`,
  `TicketActions`, `TicketCard`, `TechnicianDashboard`);
- how a ticket, customer, technician, remark or to-do is validated and turned
  into the row that is written (`TicketForm`, `Customers`, `Technicians`,
  `TicketRemarks`, `Todos`, `FileUpload`);
- the status vocabularies and the counters built on them (`StatusTables`,
  `TicketsPage`, `AdminDashboard`, `TechnicianTickets`, `Antivirus`,
  `Attendance`);
- the WhatsApp side: the status-change notification plan and its delivery
  (`Notifications`, `TicketUpdates`, `WhatsApp`), the template button's
  placeholder substitution and `wa.me` link (`TemplateActions`), and the
  template page with its eleven defaults (`TemplatesPage`,
  `DefaultTemplates`).

`Wrappers`, `Seqs` and `Text` hold the shared option/result types, sequence
filters and counts, and string operations (trim, case mapping, search,
replace-all, decimal rendering, and JavaScript's `length`, which counts UTF-16
code units rather than characters). `Records` holds the ticket row most
components read.

The store, the authentication service, the file storage, the WhatsApp
gateway, the clock and the identifier generator are not modelled. Each of
them appears as a parameter: a success flag, an error value, a returned row,
or a function from the request (or from the position of a file) to the
answer. The model therefore states what each handler does for every
possible answer.

The status tables disagree with one another, and the model keeps every table
exactly as written rather than reconciling them. Several consequences are
proved as lemmas about the code as it stands:

- A new ticket is written with status `in_queue`. The technician
  dashboard's pending list asks for `generated`, so it never shows a new
  ticket (`TechnicianDashboard.NewTicketNeverPending`).
- The tickets page's main list drops every `in_queue` ticket, so selecting
  that status shows nothing (`TicketsPage.InQueueSelectionEmpty`). Its
  pending tab is built from the main list, so it never contains a ticket
  from the generated list (`TicketsPage.PendingMissesGenerated`).
- The admin dashboard counts `done` as completed, while the technician
  dashboard counts `complete` (`AdminDashboard.CompletedDisagrees`).
- The notification table is keyed by codes the database does not store
  (`generated`, `pickup_scheduled`). The stored `in_queue`, `pickup`,
  `on_hold` and `complete` send nothing
  (`Notifications.UnknownStatusesAreSilent`), nor do approve and reject
  (`TicketActions.ApproveRejectSilent`).
- The default templates write their variables as `{Customer Name}`, but the
  send button only fills in `{customer_name}` and its five siblings. A
  default's variables are therefore sent verbatim
  (`DefaultTemplates.DefaultVariablesVerbatim`).
- The notification table reads the ticket's properties under camel-case
  names (`ticketId`, `customerName`, `pickupDate`, `estimateAmount`, …),
  but the ticket-update hook hands it the row the store returns, whose
  columns are snake-case. On such a row every one of those reads is
  undefined, and only `status` and `description` can carry a value
  (`Notifications.StoreRowVariables`). An assignment therefore messages
  the technician with an undefined ticket id and customer name
  (`Notifications.AssignedStoreRow`, `TicketUpdates.AssignmentMessage`).
  The service takes the object it is given as a map from property name to
  text, so these reads are modelled as they happen.
- The ticket-update hook writes the column `status`, while the other
  writers use `ticket_status`, and the generated table types have no
  `status` column. A returned row without that property sends nothing
  (`TicketUpdates.NoStatusPropertySilent`); whether the store accepts the
  write at all is the store's answer, a parameter. The generated list on
  the tickets page has no deleted-ticket filter. All of this is modelled
  as written.

The customers page's `handleDelete` is the same soft delete as the
customer form's and is modelled once, as `Customers.Delete`. The form
returns early on an empty id; the page has no such test but is only
called with a stored row's id.

## Model

| member | source | states |
|---|---|---|
| WhatsApp.Endpoint | src/integrations/whatsapp/service.ts:13-14 | the message URL starts with the Graph API host and ends with `/messages` |
| WhatsApp.ParseEndpoint | src/integrations/whatsapp/service.ts:14 | reading an endpoint back yields a phone-number id and a version free of `/` |
| WhatsApp.ParseEndpointRoundTrip | src/integrations/whatsapp/service.ts:13-28 | for a slash-free version the endpoint URL parses back to exactly that version and phone-number id |
| WhatsApp.EndpointInjective | src/integrations/whatsapp/service.ts:13-28 | two configurations with the same endpoint agree on version and phone-number id |
| WhatsApp.Headers | src/integrations/whatsapp/service.ts:15-18 | the constructor fixes two headers, the second `Content-Type: application/json` |
| WhatsApp.BearerToken | src/integrations/whatsapp/service.ts:16 | a token read from the headers is one some header carries after `Bearer ` |
| WhatsApp.BearerTokenRoundTrip | src/integrations/whatsapp/service.ts:16 | the Authorization header carries exactly the configured access token |
| WhatsApp.Variables | src/integrations/whatsapp/service.ts:41-44 | one text, or an undefined text, per body parameter |
| WhatsApp.BuildBody | src/integrations/whatsapp/service.ts:29-48 | the body is a WhatsApp template message in English with one body component of text parameters, one per variable, addressed to `to` with the template name |
| WhatsApp.BuildBodyRoundTrip | src/integrations/whatsapp/service.ts:41-44 | the parameters carry exactly the given variables, undefined ones included, in order |
| WhatsApp.WellFormedIsBuilt | src/integrations/whatsapp/service.ts:29-48 | every body of the fixed shape is the one built from its own recipient, name and variables |
| WhatsApp.SendTemplateMessage | src/integrations/whatsapp/service.ts:21-57 | the post goes to the endpoint with the fixed headers and built body; a gateway error reaches the caller unchanged |
| Records.SoftDelete | src/components/TicketCard.tsx:158-163 | deleting a ticket sets `is_deleted` and changes nothing else about the row |
| Records.OrNull | src/components/customers/CustomerForm.tsx:63-66 | `value \|\| null`: an empty or missing text becomes null, any other text is kept |
| Routes.CheckAuth | src/App.tsx:42-65 | a session or profile failure is recorded as the error with the visitor signed out; otherwise the session decides sign-in, and the profile's role is kept only when non-empty; this is the state once both answers are in |
| Routes.Protect | src/App.tsx:70-96 | the guard shows the error first, then the loading screen, then the login redirect, then the root redirect exactly when the role is refused, and the page exactly otherwise |
| Routes.InitiallyLoading | src/App.tsx:37-86 | before the session check ends every protected route shows the loading screen |
| Routes.PageBeforeRedirect | src/App.tsx:48-93 | between the session answer and the profile answer a signed-in visitor has no role, so a route that will redirect them once the role is known shows its page in the meantime |
| Routes.MissingRolePasses | src/App.tsx:58-92 | a signed-in visitor whose profile has no role passes every role check |
| Routes.OpenRouteAdmitsAll | src/App.tsx:36-92 | a route that lists no roles admits every signed-in visitor |
| Routes.LoginRoute | src/App.tsx:146-149 | the login page is shown exactly to visitors without a session; technicians go to their dashboard, everyone else to the root |
| Routes.RootRoute | src/App.tsx:150-160 | the root shows the admin dashboard exactly to signed-in non-technicians; others go to login or to the technician dashboard |
| Routes.NoLoginLoop | src/App.tsx:146-160 | a signed-in visitor sent from login to the root is shown the root page, not sent back |
| Routes.AllowedRoles | src/App.tsx:161-192 | a path has roles exactly when it is one of the protected routes, and then they are that route's roles |
| Routes.LookupFinds | src/App.tsx:161-192 | a route no earlier route shadows is the one the lookup finds for its path |
| Routes.OtherRoutesAdmitAdmins | src/App.tsx:177-192 | every protected route other than the technician's two pages is open to all or to admins only |
| Routes.RouteRoles | src/App.tsx:161-191 | the technician dashboard admits technicians, a new ticket admins and technicians, the templates admins |
| Routes.RoleGates | src/App.tsx:92-96 | an admin is refused the technician dashboard, a technician the admin-only page, and both pass the new-ticket check |
| Routes.TechnicianEndsOnDashboard | src/App.tsx:92-168 | a technician refused an admin-only page lands, through the root, on their own dashboard, which admits them |
| Sidebar.Redirect | src/components/AppSidebar.tsx:53-59 | a redirect happens exactly for a technician on a path mentioning neither `technician-dashboard` nor `new-ticket`, and it goes to the technician dashboard |
| Sidebar.OwnPagesContained | src/components/AppSidebar.tsx:54-57 | the technician's two pages mention the words the redirect looks for |
| Sidebar.RedirectSettles | src/components/AppSidebar.tsx:53-59 | the redirect's target is a page it leaves alone, so it never fires twice in a row |
| Sidebar.Menu | src/components/AppSidebar.tsx:71-161 | Dashboard (the root for admins, the technician dashboard otherwise) and New Ticket come first; admins then get the seven admin-only buttons in order, others nothing more |
| Sidebar.HighlightedIffCurrent | src/components/AppSidebar.tsx:71-161 | a button is highlighted exactly when its path is the current path |
| Sidebar.AtMostOneHighlighted | src/components/AppSidebar.tsx:71-161 | no two buttons of a menu are highlighted at once |
| Sidebar.DistinctTargets | src/components/AppSidebar.tsx:71-161 | no two buttons of a menu open the same path |
| Sidebar.AdminPathsDistinct | src/components/AppSidebar.tsx:102-161 | the admin-only buttons open pairwise distinct paths |
| Sidebar.TechnicianMenu | src/components/AppSidebar.tsx:45-99 | a technician's menu is two buttons, the first opening the technician dashboard |
| Sidebar.TechnicianStays | src/components/AppSidebar.tsx:53-99 | the redirect leaves a technician on either page their menu opens |
| Sidebar.TechnicianAdmitted | src/App.tsx:161-176 | the route of each of the technician's two pages admits a signed-in technician |
| Sidebar.TechnicianMenuReachable | src/components/AppSidebar.tsx:80-99 | every button a technician sees opens a page that both the redirect and the route guard let them stay on |
| Sidebar.AdminTargetRouted | src/components/AppSidebar.tsx:102-161 | every admin-only button's path is a protected route |
| Sidebar.AdminTargetNotTechnicians | src/components/AppSidebar.tsx:102-161 | no admin-only button opens the root or either technician page |
| Sidebar.AdminAdmitted | src/App.tsx:177-192 | the route of each admin-only button admits a signed-in admin |
| Sidebar.AdminMenuReachable | src/components/AppSidebar.tsx:102-161 | every admin-only button in an admin's menu opens a page the route guard admits them to |
| StatusTables.Lookup | src/components/TicketCard.tsx:195-196 | `statusConfig[code]` finds a row exactly when the table has that code, and the row found carries it |
| StatusTables.LookupFirst | src/components/TicketCard.tsx:195-196 | the lookup finds the first row carrying the code |
| StatusTables.LookupAbsent | src/components/TicketCard.tsx:195-196 | a code no row carries finds nothing, so the caller's fallback applies |
| StatusTables.TicketsPageListShape | src/pages/Tickets.tsx:17-32 | the tickets page's filter list has fourteen distinct codes, from `in_queue` to `on_hold` |
| StatusTables.TicketsPageTablesDisagree | src/pages/Tickets.tsx:17-50 | the same page labels `client_approval` "Client Approval" in its list and "Estimate Sent" in its badges, and only the badges know `approval_received` |
| StatusTables.TicketsPageConfigShape | src/pages/Tickets.tsx:34-50 | the tickets page's badge table has fifteen distinct codes |
| StatusTables.CardConfigShape | src/components/TicketCard.tsx:48-63 | the card's table has the same fourteen distinct codes, in the same order, as the tickets page's list |
| StatusTables.CardConfigHoldNotRejected | src/components/TicketCard.tsx:48-63 | the card has a badge for `on_hold` and none for `rejected` |
| StatusTables.TechnicianConfigShape | src/components/technicians/TechnicianTicketList.tsx:19-48 | a technician may set exactly seven statuses, from `ticket_accepted` to `on_hold` |
| StatusTables.TemplateStatusesShape | src/types/templates.ts:12-27 | the template status dictionary has fourteen distinct codes |
| StatusTables.TemplateHoldSpelling | src/types/templates.ts:26 | the template dictionary spells the hold status `hold`, not `on_hold` |
| StatusTables.DbStatusesShape | src/integrations/supabase/types.ts:296-308 | the database enum has twelve distinct statuses |
| StatusTables.DbStatusesMembers | src/integrations/supabase/types.ts:296-308 | the database enum stores `in_queue` and `on_hold` but not `generated`, `delivered` or `hold` |
| StatusTables.Label | src/types/tickets.ts:36-48 | every status has a non-empty label |
| StatusTables.ParseTicketStatus | src/types/tickets.ts:23-34 | a string read as a status is that status's literal |
| StatusTables.ParseCode | src/types/tickets.ts:23-34 | each status's literal reads back as that status |
| StatusTables.TicketStatusCount | src/types/tickets.ts:23-34 | there are exactly eleven statuses with pairwise distinct literals |
| StatusTables.LabelsDistinct | src/types/tickets.ts:36-48 | distinct statuses have distinct labels |
| StatusTables.LabelFacts | src/types/tickets.ts:23-48 | the hold status is labelled "On Hold" and `generated` "Generated"; neither `in_queue` nor `on_hold` is a status of this type |
| StatusTables.ParseInterfacePriority | src/types/tickets.ts:8 | a ticket's priority is exactly one of `low`, `medium`, `high` |
| AdminDashboard.AdminStats | src/pages/Index.tsx:19-40 | the total counts the rows not deleted and `completed` those of them whose status is `done`; the chart's two slices are Completed and Active and add up to the total |
| AdminDashboard.DeletedIgnored | src/pages/Index.tsx:20-23 | adding a deleted row leaves every statistic as it was |
| AdminDashboard.LiveDropsDeleted | src/pages/Index.tsx:20-23 | the query's result is unchanged by a deleted row |
| AdminDashboard.CompletedDisagrees | src/pages/Index.tsx:35 | one live `done` ticket is completed on the admin's dashboard and not on the technician's |
| TechnicianDashboard.TicketStats | src/pages/TechnicianDashboard.tsx:50-53 | the total and the counts of `complete`, `in_progress` and `in_queue`/`assigned` rows; the three counts never exceed the total together |
| TechnicianDashboard.StatusData | src/pages/TechnicianDashboard.tsx:55-59 | the chart's slices are Completed, In Progress and Pending with those counts |
| TechnicianDashboard.PendingApproval | src/pages/TechnicianDashboard.tsx:94-107 | the list holds exactly the user's own rows that need approval and have status `generated` |
| TechnicianDashboard.NewTicketNeverPending | src/pages/TechnicianDashboard.tsx:104-106 | a ticket the technician has just created through the form never appears in their pending-approval list |
| TechnicianDashboard.Show | src/pages/TechnicianDashboard.tsx:298-322 | the skeleton shows exactly while loading, then the load error exactly when the user query failed |
| TechnicianDashboard.AuthError | src/pages/TechnicianDashboard.tsx:137-139 | the auth lookup fails exactly when it reports an error or no user |
| TechnicianDashboard.CheckIn | src/pages/TechnicianDashboard.tsx:135-177 | a check-in succeeds exactly for a signed-in user with no row today and a working insert; the row is today's, checked in now, `present`, unapproved; a second check-in is refused with the toast's text |
| TechnicianDashboard.CheckOut | src/pages/TechnicianDashboard.tsx:180-210 | a check-out succeeds exactly for a signed-in user with today's row and a working update, and sets only `check_out` and `updated_at` |
| TechnicianDashboard.OneButtonAtATime | src/pages/TechnicianDashboard.tsx:353-370 | "Check In" and "Check Out" never show together |
| TechnicianDashboard.ShowCheckIn | src/pages/TechnicianDashboard.tsx:353-362 | "Check In" shows without a row for today, and with one exactly while its check-in is stored as null |
| TechnicianDashboard.ShowCheckOut | src/pages/TechnicianDashboard.tsx:363-370 | "Check Out" shows exactly when today's row has a stored check-in and a null check-out |
| TechnicianDashboard.DayCycle | src/pages/TechnicianDashboard.tsx:135-210 | a day goes from only "Check In", through only "Check Out" with a second check-in refused, to neither button |
| TechnicianDashboard.RunsMigrations | src/pages/TechnicianDashboard.tsx:225 | the migration step runs exactly for admins |
| TicketForm.Issues | src/components/tickets/TicketForm.tsx:21-36 | a field is reported exactly when the schema rejects it; every field is checked |
| TicketForm.Validate | src/components/tickets/TicketForm.tsx:21-36 | input passes exactly when no field is rejected; otherwise the error lists the rejected fields; a missing priority becomes `medium` and the other values pass through |
| TicketForm.ValidatedInRange | src/components/tickets/TicketForm.tsx:21-31 | accepted input has one of the four priorities, enumerated values from their lists and non-empty required texts |
| TicketForm.BlankDefaultsRejected | src/components/tickets/TicketForm.tsx:87-100 | the new form's defaults fail on exactly customer, title, description, brand and serial number |
| TicketForm.BlankTextsRejected | src/components/tickets/TicketForm.tsx:21-36 | a form with no customer and empty texts but allowed choices fails on exactly customer, title, description, brand and serial number |
| TicketForm.Submit | src/components/tickets/TicketForm.tsx:103-204 | without a user nothing is written; otherwise the row is `in_queue`, needs approval exactly for technicians, has no technician when a technician submits, and a blank comment becomes null; an admin's ticket with a technician is followed by the assignment; a technician's ticket notifies each admin found |
| TicketForm.SubmitIgnoresEditing | src/components/tickets/TicketForm.tsx:71-87 | the ticket the form was opened with changes nothing about the submit: it always inserts a new row |
| TicketForm.AsRow | src/components/tickets/TicketForm.tsx:111-127 | the inserted row as the lists later read it keeps its id, status, approval flag and creator, and is not deleted |
| TicketForm.TechnicianTicketOnlyGenerated | src/components/tickets/TicketForm.tsx:121-126 | a technician's new ticket is in the admins' generated list but never in the technician's pending tab |
| TicketsPage.Find | src/pages/Tickets.tsx:166-171 | the entry found is the first with that status; none is found exactly when no entry has it |
| TicketsPage.CountOf | src/pages/Tickets.tsx:166-171 | a status without an entry counts 0 |
| TicketsPage.Bump | src/pages/Tickets.tsx:146-150 | one reduce step adds one to that status's count, leaves every other count alone, keeps one entry per status and adds one to the sum |
| TicketsPage.TicketCounts | src/pages/Tickets.tsx:131-163 | the counts list has one entry per status |
| TicketsPage.CountsAreCounts | src/pages/Tickets.tsx:131-171 | the count shown for a status is the number of non-deleted tickets with that status, defined independently by recursion over the rows |
| TicketsPage.CountsTotal | src/pages/Tickets.tsx:131-156 | the counts add up to the number of non-deleted tickets |
| TicketsPage.Toggle | src/pages/Tickets.tsx:173-175 | clicking the selected card clears the selection, any other card selects it |
| TicketsPage.ToggleTwice | src/pages/Tickets.tsx:173-175 | two clicks on one card restore an empty or same-card selection and clear any other |
| TicketsPage.MainList | src/pages/Tickets.tsx:81-124 | the main list holds exactly the non-deleted tickets, of the selected status when one is selected, never `in_queue` |
| TicketsPage.Shown | src/pages/Tickets.tsx:126-128 | with a selection every ticket shown has the selected status |
| TicketsPage.ShownIsMainList | src/pages/Tickets.tsx:103-128 | the client-side filter changes nothing: the query already applied it |
| TicketsPage.InQueueSelectionEmpty | src/pages/Tickets.tsx:103-128 | selecting the `in_queue` card lists nothing, whatever its count says |
| TicketsPage.Generated | src/pages/Tickets.tsx:217-239 | the generated list holds exactly the `in_queue` tickets awaiting approval, deleted ones included |
| TicketsPage.Pending | src/pages/Tickets.tsx:431-437 | the pending tab holds exactly the main-list tickets the user created that await approval |
| TicketsPage.PendingMissesGenerated | src/pages/Tickets.tsx:108-437 | no ticket in the generated list ever shows in the pending tab |
| TicketsPage.Assigned | src/pages/Tickets.tsx:384-392 | the assignment sets technician, status `assigned`, no approval needed and the timestamp to now, and nothing else |
| TicketsPage.AssignFromGenerated | src/pages/Tickets.tsx:382-417 | the assignment succeeds exactly when the update does; a notice for the technician is written exactly when both writes work, and its failure does not fail the assignment |
| TicketsPage.AssignedLeavesGenerated | src/pages/Tickets.tsx:384-392 | an assigned ticket leaves the generated list and, if not deleted, joins the main list |
| TicketCard.Badge | src/components/TicketCard.tsx:195-196 | a configured code shows its row's caption and colour; any other code the grey "Unknown Status" badge |
| TicketCard.BadgeExamples | src/components/TicketCard.tsx:48-63 | `in_queue` shows the blue "Generated" badge and `rejected`, which the database can store, the fallback |
| TicketCard.Menu | src/components/TicketCard.tsx:206-216 | the menu has one entry per table row, in order, with that row's code and caption |
| TicketCard.MenuDisabled | src/components/TicketCard.tsx:211 | an entry is disabled exactly when it is the current status |
| TicketCard.MenuDisabledCount | src/components/TicketCard.tsx:206-216 | in a table with distinct codes, exactly one entry is disabled when the current status is in it, none otherwise |
| TicketCard.CardMenu | src/components/TicketCard.tsx:198-219 | the card's menu lists all fourteen configured statuses with at most the current one disabled |
| TicketCard.ChangeStatus | src/components/TicketCard.tsx:144-155 | a status change writes only the status, and a failed write leaves the ticket as it was |
| TicketCard.ChangeStatusUndo | src/components/TicketCard.tsx:144-155 | choosing the previous status again restores the ticket exactly |
| TicketCard.MenuShown | src/components/TicketCard.tsx:198 | the status menu is offered exactly to admins and technicians |
| TicketCard.Delete | src/components/TicketCard.tsx:157-172 | a delete sets only the deleted flag when the write succeeds, and the toast reports whether it did |
| TicketCard.FooterControls | src/components/TicketCard.tsx:236-270 | edit and delete show exactly for admins, the template button exactly for admins and technicians |
| TechnicianTickets.OptionsAreConfigured | src/components/technicians/TechnicianTicketList.tsx:211-227 | the select offers exactly the list's configured codes, in the same order, so the success toast's label lookup always finds one |
| Records.AssignedTo | src/components/technicians/TechnicianTicketList.tsx:69-88 | the technician's ticket list, like the dashboard statistics query, holds exactly the tickets assigned to that technician and not deleted |
| TechnicianTickets.ListedDisjoint | src/components/technicians/TechnicianTicketList.tsx:82-83 | another technician's tickets never show |
| TechnicianTickets.ChangeStatus | src/components/technicians/TechnicianTicketList.tsx:109-127 | a status change writes only the status and the timestamp, and a refused write changes nothing |
| TechnicianTickets.ChangeStatusUndo | src/components/technicians/TechnicianTicketList.tsx:109-127 | choosing the previous status again restores the ticket apart from the timestamp, which is the later one |
| TechnicianTickets.BadgeCaption | src/components/technicians/TechnicianTicketList.tsx:201 | a configured code shows its label, any other "Unknown" |
| TechnicianTickets.BadgeColor | src/components/technicians/TechnicianTicketList.tsx:200 | a configured code shows its colour, any other plain grey |
| TechnicianTickets.UnknownForAdminCodes | src/components/technicians/TechnicianTicketList.tsx:19-48 | `assigned` and `in_queue`, which the admin side sets, show "Unknown" here |
| TechnicianTickets.SubmitComment | src/components/technicians/TechnicianTicketList.tsx:129-179 | a missing or blank draft is refused before anything else; an insert happens exactly when nothing refused it, stores the trimmed draft for the signed-in user and clears only that ticket's draft |
| TechnicianTickets.SubmitTwiceRefused | src/components/technicians/TechnicianTicketList.tsx:132-171 | after a successful submit a second one is refused as empty, so a comment is never stored twice |
| TechnicianTickets.StoredCommentTrimmed | src/components/technicians/TechnicianTicketList.tsx:158 | a stored comment has no whitespace at either end |
| TechnicianTickets.CommentsFor | src/components/technicians/TechnicianTicketList.tsx:233-234 | a ticket shows exactly the comments whose ticket id matches |
| TechnicianTickets.CommentsSplit | src/components/technicians/TechnicianTicketList.tsx:233-234 | no comment shows under two tickets |
| Attendance.Approve | src/pages/TechnicianAttendance.tsx:82-101 | approval fails without a user or with a store error; otherwise the record is approved by the caller at `now` and nothing else changes |
| Attendance.RecordFor | src/pages/TechnicianAttendance.tsx:234 | a card shows nothing exactly when no record of the day is the technician's; otherwise it shows the first record that is, every earlier one belonging to someone else |
| Attendance.BadgeLabel | src/pages/TechnicianAttendance.tsx:245-246 | the badge reads "Approved", else the record's status, else "Not Marked" |
| Attendance.BadgeVariant | src/pages/TechnicianAttendance.tsx:240-244 | the badge is success exactly when approved, warning exactly when present and unapproved, secondary otherwise |
| Attendance.ApprovalSettles | src/pages/TechnicianAttendance.tsx:240-270 | after an approval the button is gone and the badge is the green "Approved" |
| Attendance.ShowApprove | src/pages/TechnicianAttendance.tsx:263 | "Approve Attendance" shows exactly for an existing record whose badge is not the approved one |
| Attendance.FindProfile | src/pages/TechnicianAttendance.tsx:130 | a technician's profile is found exactly when one has their user id |
| Attendance.Cells | src/pages/TechnicianAttendance.tsx:131-141 | a report row has one cell per column header |
| Attendance.ReportRowFor | src/pages/TechnicianAttendance.tsx:129-142 | name or "Unknown", mobile or "N/A", times or "-", "Yes"/"No" for approval, working hours computed from the two times exactly when both are set, otherwise "-" |
| Attendance.ColumnWidths | src/pages/TechnicianAttendance.tsx:161-170 | every column is as wide as the longest of its header and its cells, lengths counted as JavaScript counts them, in UTF-16 code units; an empty report has no columns |
| Customers.Issues | src/components/customers/CustomerForm.tsx:13-20 | a field is reported exactly when the schema rejects it: a name empty or not upper-case, a mobile not ten UTF-16 code units long, a non-empty invalid e-mail, a non-empty GST not fifteen units long |
| Customers.NameRule | src/components/customers/CustomerForm.tsx:14 | a name passes exactly when it is non-empty with no lower-case letter; an empty name gets "Name is required" |
| Customers.DefaultsRejected | src/components/customers/CustomerForm.tsx:34-41 | the empty defaults fail on exactly the name and the mobile |
| Customers.Handed | src/components/tickets/CustomerForm.tsx:7-37 | the ticket screen's form hands its values on exactly when the same schema accepts them, unchanged |
| Customers.InsertFor | src/components/customers/CustomerForm.tsx:60-67 | name and mobile are inserted as entered; empty optional fields become null |
| Customers.SameMobile | src/components/customers/CustomerForm.tsx:47-51 | the duplicate check finds exactly the live customers with that mobile |
| Customers.MobileRule | src/components/customers/CustomerForm.tsx:15 | for a mobile with no character outside the Basic Multilingual Plane, the mobile is rejected exactly when it is not ten characters long |
| Customers.AstralMobileRejected | src/components/customers/CustomerForm.tsx:15 | nine digits and an emoji, ten characters but eleven UTF-16 code units, are rejected as a mobile |
| Customers.Add | src/components/customers/CustomerForm.tsx:44-86 | an insert happens exactly when the lookup works and no live customer has the mobile; a customer is created exactly when the insert also works, and its id is handed on |
| Customers.AddIgnoresEditing | src/components/customers/CustomerForm.tsx:26-86 | the customer the form was opened for changes nothing: the submit always inserts |
| Customers.AddKeepsMobilesUnique | src/components/customers/CustomerForm.tsx:46-58 | adding through the form keeps the mobiles of live customers unique |
| Customers.Delete | src/components/customers/CustomerForm.tsx:88-105 | without an id (none or empty) or when the store refuses nothing changes; otherwise the rows with the id are marked deleted and nothing else changes |
| Customers.DeletedFreesMobile | src/components/customers/CustomerForm.tsx:47-51 | a customer deleted by a non-empty id no longer blocks its mobile |
| Customers.Live | src/pages/Customers.tsx:24-35 | the page loads exactly the customers not deleted |
| Customers.Search | src/pages/Customers.tsx:37-39 | the search keeps exactly the customers whose name contains the term, ignoring case |
| Customers.EmptySearchAll | src/pages/Customers.tsx:37-39 | the empty search shows every loaded customer |
| Technicians.EmailPatternSound | src/components/technicians/TechnicianForm.tsx:18-24 | every address the pattern check accepts has the shape local `@` domain `.` tld with the pattern's character classes |
| Technicians.EmailPatternComplete | src/components/technicians/TechnicianForm.tsx:18-24 | every address of that shape is accepted |
| Technicians.Issues | src/components/technicians/TechnicianForm.tsx:13-30 | the schema reports nothing exactly when the name is non-empty, the mobile has ten or more UTF-16 code units and a present e-mail passes all three of its checks; an absent e-mail is never reported |
| Technicians.AuthErrorMessage | src/components/technicians/TechnicianForm.tsx:47-56 | two signup messages are reworded, an empty one gets the fallback, any other is shown as is; the result is never empty |
| Technicians.MobileRule | src/components/technicians/TechnicianForm.tsx:26 | for a mobile with no character outside the Basic Multilingual Plane, the minimum-length message appears exactly when it has fewer than ten characters |
| Technicians.AstralMobileAccepted | src/components/technicians/TechnicianForm.tsx:26 | four digits and three emoji, seven characters but ten UTF-16 code units, pass the minimum |
| Technicians.Save | src/components/technicians/TechnicianForm.tsx:83-211 | nothing is written without a user, with a failed role lookup or for a non-admin, each with its toast; an edit updates the technician's profile scoped to the technician role and never signs up; a creation needs an e-mail, signs up with the default password, and writes the new user's profile with the technician role; success needs the final write to work |
| Technicians.SignUpExactlyOnCreate | src/components/technicians/TechnicianForm.tsx:138-178 | for an admin, the save signs a user up exactly when it creates a technician with an email; an edit never does |
| Technicians.AdminGate | src/pages/Technicians.tsx:45-97 | the page opens exactly for an admin; no user goes to login, another role to the root, and a failed lookup leaves it blank |
| Technicians.TechnicianProfiles | src/pages/Technicians.tsx:99-140 | only an admin gets a list, and it holds exactly the live profiles with the technician role |
| Technicians.Search | src/pages/Technicians.tsx:142-148 | the search keeps exactly the technicians whose name, mobile or address contains the term, ignoring case |
| Technicians.EmptySearchAll | src/pages/Technicians.tsx:142-148 | the empty search shows every technician, even those with no name, mobile or address |
| Antivirus.Classify | src/pages/AntivirusManagement.tsx:121-127 | a licence is expired exactly when fewer than zero days are left, expiring soon exactly for zero to fifteen days, active exactly beyond that |
| Antivirus.Boundaries | src/pages/AntivirusManagement.tsx:72-81 | zero and fifteen days are soon, minus one is expired, sixteen is active |
| Antivirus.ExpiryText | src/pages/AntivirusManagement.tsx:68-96 | the expiry cell reads "Expired", "Expires in N days" with the day count in decimal, or the formatted date, by bucket |
| Antivirus.Add | src/pages/AntivirusManagement.tsx:123-125 | counting one licence adds exactly one to the counters' total |
| Antivirus.AddCounts | src/pages/AntivirusManagement.tsx:121-127 | counting a licence into its bucket keeps the counters equal to the bucket counts of the licences seen |
| Antivirus.TallyLicenses | src/pages/AntivirusManagement.tsx:121-127 | each counter is the number of licences in its bucket, and the three add up to the number of licences |
| Antivirus.ChartData | src/pages/AntivirusManagement.tsx:129-133 | the chart has no bars before loading, else Active, Expiring Soon and Expired with the counters |
| Antivirus.ExpiringList | src/pages/AntivirusManagement.tsx:224-228 | the card lists exactly the licences with zero to fifteen days left |
| Antivirus.ExpiringListMatchesTally | src/pages/AntivirusManagement.tsx:121-228 | the card lists exactly as many licences as the statistics count as expiring soon |
| Antivirus.DaysLeftBadge | src/pages/AntivirusManagement.tsx:237-239 | an expiring licence's badge shows its days left in decimal followed by " days left" |
| Notifications.StatusTemplates | src/services/notifications.ts:17-110 | the table has an entry exactly when the ticket has a `status` property holding one of the nine statuses it names (generated … done); any other status, or none, has no entry |
| Notifications.Read | src/services/notifications.ts:22-103 | a property read has a value exactly when the object has that property, and the value is the one it holds |
| Notifications.StoreRowCamelCaseUndefined | src/services/notifications.ts:22-103 | on an object whose property names are all lower-case, as the store's rows are, the `ticketId`, `customerName`, pickup, delivery and `estimateAmount` reads are all undefined |
| Notifications.Plan | src/services/notifications.ts:109-137 | no entry means no sends; an audience is messaged exactly when its entry has a template and its phone is non-empty; each message carries that audience's template and variables to that audience's phone; client precedes admin precedes technician, each at most once |
| Notifications.EntryPlanTargets | src/services/notifications.ts:113-136 | for any status entry, an audience is targeted exactly when the entry has a template for it and its phone is set |
| Notifications.EntryPlanJobs | src/services/notifications.ts:113-136 | every planned message goes to its audience's non-empty phone with the entry's template and variables for that audience |
| Notifications.EntryPlanOrder | src/services/notifications.ts:112-137 | planned messages follow the client, admin, technician order |
| Notifications.UnknownStatusesAreSilent | src/services/notifications.ts:109-110 | the stored status codes `in_queue`, `pickup`, `on_hold`, `complete`, and a missing `status` property, have no table entry and send nothing |
| Notifications.AssignedOnlyTechnician | src/services/notifications.ts:30-36 | an assignment never messages the client or the admin; with a technician phone it sends exactly `ticket_assigned` with whatever the object's `ticketId`, `customerName` and `description` properties hold, undefined included |
| Notifications.InProgressVariableOrder | src/services/notifications.ts:38-47 | `in_progress` sends `technician_started` to the client with the `customerName` and `ticketId` properties and then to the admin with the same two in the other order, undefined ones included |
| Notifications.EstimateAndApprovalAudiences | src/services/notifications.ts:71-83 | an estimate reaches only the client and an approval only the admin |
| Notifications.AssignedStoreRow | src/hooks/useTicketActions.ts:65-83 | an assignment notified from the row the store returns sends the technician `ticket_assigned` with an undefined ticket id and customer name and the row's description |
| Notifications.InProgressStoreRow | src/services/notifications.ts:38-47 | starting work notified from a store row sends both `technician_started` messages with two undefined variables |
| Notifications.StoreRowVariables | src/hooks/useTicketActions.ts:23-37 | for a store row every variable of every planned message is undefined or the row's description |
| Notifications.Deliver | src/services/notifications.ts:112-141 | the sent messages are a prefix of the plan, each sent successfully; without an error all were sent; on an error the next message is the one whose send failed with that error |
| Notifications.SendStatusChangeNotifications | src/services/notifications.ts:13-142 | an unknown status sends nothing and reports no error; what was sent is a prefix of the plan, and the call reports no error exactly when the whole plan was sent |
| TicketUpdates.Trace | src/hooks/useTicketActions.ts:20-50 | a call turns loading on, writes the ticket, performs the sends in order, refreshes the ticket list only when nothing failed, and turns loading off last; the error it throws is the failure |
| TicketUpdates.WriteThenNotify | src/hooks/useTicketActions.ts:20-50 | the write always comes first; sends happen only for a row the update returned and are exactly the notification service's sends; a store error is thrown as is, a missing row succeeds quietly, a send failure is thrown; the list is refreshed exactly when nothing was thrown |
| TicketUpdates.UpdateTicketStatus | src/hooks/useTicketActions.ts:11-28 | a status change writes the new value to the `status` column of the ticket with that ticket id |
| TicketUpdates.AssignTechnician | src/hooks/useTicketActions.ts:53-73 | an assignment writes the technician id and the status `assigned` in one update |
| TicketUpdates.UpdateErrorSendsNothing | src/hooks/useTicketActions.ts:23-30 | a failed update sends no notification and throws the store's error |
| TicketUpdates.QuietNotifier | src/hooks/useTicketActions.ts:33-43 | a returned row with nothing to notify gives a successful call that sends nothing |
| TicketUpdates.SendFailureAfterWrite | src/hooks/useTicketActions.ts:23-47 | a failing notification is thrown to the caller after the ticket is already written, and the list is not refreshed |
| TicketUpdates.AllSent | src/hooks/useTicketActions.ts:33-41 | with the WhatsApp service and a gateway that accepts every request, every planned notification is sent, in plan order, right after the write, and the call succeeds |
| TicketUpdates.AssignmentMessage | src/hooks/useTicketActions.ts:53-83 | with a technician phone, a store row carrying `status` = `assigned` and a gateway that accepts everything, the assignment sends exactly one message, the technician's `ticket_assigned` with undefined ticket id and customer name, and succeeds |
| TicketUpdates.NoStatusPropertySilent | src/services/notifications.ts:109-110 | a returned row without a `status` property, as the generated table types describe the store's rows, sends nothing and the call succeeds |
| TicketActions.View | src/components/tickets/TicketActions.tsx:108-203 | the bar shows the spinner exactly while an update runs; approve/reject exactly for an admin on a ticket awaiting approval; Start Work/Complete exactly for a non-approving technician on an approved ticket, each disabled when the ticket is already in that status; the waiting note exactly for a non-admin technician on a pending ticket; otherwise the default icons, with the admin tools exactly for admins |
| TicketActions.PendingTechnicianHasNoActions | src/components/tickets/TicketActions.tsx:117-158 | a technician on a ticket awaiting approval never gets the status buttons |
| TicketActions.AdminApprovalFirst | src/components/tickets/TicketActions.tsx:117-132 | a user who is both admin and technician sees approve/reject on a pending ticket |
| TicketActions.Approve | src/components/tickets/TicketActions.tsx:89-105 | approving writes the status `in_queue` to the ticket |
| TicketActions.Reject | src/components/tickets/TicketActions.tsx:89-106 | rejecting writes the status `rejected` to the ticket |
| TicketActions.ApproveRejectSilent | src/components/tickets/TicketActions.tsx:105-106 | with the WhatsApp service, approving or rejecting succeeds and sends no message, since neither target status has a notification entry |
| TicketActions.ServiceSilent | src/services/notifications.ts:109-110 | the notification service sends nothing and reports no error for a row in `in_queue` or `rejected` |
| TicketActions.Archive | src/components/tickets/TicketActions.tsx:50-65 | an accepted archive sets the archive flag and changes nothing else; a refused one changes nothing |
| TicketActions.ArchiveStaysListed | src/components/tickets/TicketActions.tsx:50-65 | archiving does not move a ticket on or off a technician's list, since no list filters on the archive flag |
| TicketActions.Assign | src/components/tickets/TicketActions.tsx:67-87 | without a selected technician nothing is written; otherwise the technician and `assigned` are written together, and the dialog closes exactly when the assignment did not throw |
| TicketActions.Applied | src/hooks/useTicketActions.ts:65-73 | an update changes the row's technician and `ticket_status` only, each to the last value written to its column, and a column the row does not hold changes nothing |
| TicketActions.AssignedListed | src/components/tickets/TicketActions.tsx:67-87 | an assignment the store accepts puts a live ticket on the selected technician's list and no other, and leaves `ticket_status` as it was |
| TemplateActions.Substitutions | src/components/tickets/TemplateActionButton.tsx:70-78 | the six placeholders are replaced in the fixed order customer name, technician name, ticket id, issue, priority, resolution |
| TemplateActions.PlaceholderList | src/components/tickets/TemplateActionButton.tsx:72-77 | the six placeholders are distinct braced tokens |
| TemplateActions.TokenValue | src/components/tickets/TemplateActionButton.tsx:70-78 | a token stands for the value of the first replacement naming it, and for itself when none does |
| TemplateActions.ApplyAllPieces | src/components/tickets/TemplateActionButton.tsx:70-78 | running the global replacements one after another replaces every placeholder wherever it stands and keeps literal text, as long as no value contains `{` |
| TemplateActions.ApplyAll | src/components/tickets/TemplateActionButton.tsx:71-77 | the chained global replacements leave a text containing none of their patterns unchanged |
| TemplateActions.ReplaceVariables | src/components/tickets/TemplateActionButton.tsx:70-78 | a message with none of the six placeholders is sent verbatim; for a context whose values hold no `{` and a message made of `{`-free text and brace-free `{…}` tokens, every occurrence of each known placeholder becomes its value and all other text, unknown placeholders included, stays verbatim |
| TemplateActions.StrayBracesKept | src/components/tickets/TemplateActionButton.tsx:70-78 | a placeholder inside doubled braces is still replaced and the outer braces stay: `{{customer_name}}` becomes `{Ann}` |
| TemplateActions.PlaceholderValues | src/components/tickets/TemplateActionButton.tsx:72-77 | each placeholder stands for its ticket field; a missing technician name or resolution stands for the empty string |
| TemplateActions.ApplyAllSplit | src/components/tickets/TemplateActionButton.tsx:71-77 | the chained replacements are the first few of them followed by the rest |
| TemplateActions.LaterPlaceholderExpanded | src/components/tickets/TemplateActionButton.tsx:72-74 | because the replacements are chained, a customer name reading `{ticket_id}` ends up as the ticket id |
| TemplateActions.RemoveSpaces | src/components/tickets/TemplateActionButton.tsx:85 | removing whitespace keeps exactly the non-whitespace characters and never lengthens the text |
| TemplateActions.RemoveSpacesConcat | src/components/tickets/TemplateActionButton.tsx:85 | whitespace removal works piece by piece, so the kept characters stay in order |
| TemplateActions.RemoveSpacesNone | src/components/tickets/TemplateActionButton.tsx:85 | a number without whitespace is left as it is |
| TemplateActions.NormalizePhone | src/components/tickets/TemplateActionButton.tsx:85-86 | the link's phone holds no whitespace and is the whitespace-free mobile with one leading `+` dropped; no mobile gives the empty phone |
| TemplateActions.WaUrl | src/components/tickets/TemplateActionButton.tsx:89 | the link is a `https://wa.me/` link; for a phone without `?` it reads back as exactly that phone and, after `?text=`, exactly the encoded message |
| TemplateActions.LinkText | src/components/tickets/TemplateActionButton.tsx:89 | a link has a message part exactly when it reads as prefix, phone, `?text=`; the part is everything after that |
| TemplateActions.LinkIsBuilt | src/components/tickets/TemplateActionButton.tsx:89 | every link with a message part is the one built from its phone and a message that encodes to that part |
| TemplateActions.WaUrlPhone | src/components/tickets/TemplateActionButton.tsx:89 | reading the phone back out of the link gives exactly the phone it was built with, for a phone without `?` |
| TemplateActions.LinkPhone | src/components/tickets/TemplateActionButton.tsx:89 | a phone is read from a link exactly when it starts with `https://wa.me/` and has a `?` after it; the phone is the `?`-free text between the two |
| TemplateActions.Offered | src/components/tickets/TemplateActionButton.tsx:51-56 | the offered templates are exactly the active stored templates whose status is the ticket's |
| TemplateActions.OfferedDisjoint | src/components/tickets/TemplateActionButton.tsx:51-56 | each row is offered under one status at most, so the offers for two different statuses together never outnumber the rows |
| TemplateActions.DialogView | src/components/tickets/TemplateActionButton.tsx:122-155 | the spinner shows exactly while loading; the list exactly when loaded, with a mobile and at least one template, and it is those templates; without a mobile the warning shows |
| TemplateActions.SendLink | src/components/tickets/TemplateActionButton.tsx:80-92 | the opened link is a `wa.me` link whose phone part is the normalised mobile and whose message part is the encoded message with the ticket's values filled in, for a mobile without `?` |
| DefaultTemplates.Assemble | src/types/templates.ts:1-10 | a template built from a header and a prose part carries exactly that header and that prose |
| DefaultTemplates.AssembleSplit | src/types/templates.ts:1-10 | every template is its header and its prose put back together |
| DefaultTemplates.Defaults | src/types/templates.ts:29-234 | the defaults are eleven templates, the i-th with the i-th listed header and the i-th prose |
| DefaultTemplates.DefaultIds | src/types/templates.ts:29-234 | the default ids are "1" to "11" in order, and distinct |
| DefaultTemplates.DefaultsClientActive | src/types/templates.ts:29-234 | every default goes to the client and is active |
| DefaultTemplates.DefaultStatusesKnown | src/types/templates.ts:12-234 | every default's status is a key of the template status dictionary |
| DefaultTemplates.DefaultVariables | src/types/templates.ts:29-234 | every default lists `{Customer Name}` first; "Update After Repair" alone has four variables, every other default just that one |
| DefaultTemplates.SharedStatus | src/types/templates.ts:45-130 | "Technician Started" and "Approval Received" share `in_progress`, and no other two defaults share a status |
| DefaultTemplates.DefaultVariableTokens | src/types/templates.ts:29-234 | every declared default variable is a braced token that is not one of the send button's six placeholders |
| DefaultTemplates.DefaultVariablesDeclared | src/types/templates.ts:29-234 | every variable a default declares is `{Customer Name}` or one of the three issue variables |
| DefaultTemplates.DefaultVariablesVerbatim | src/components/tickets/TemplateActionButton.tsx:70-78 | a message written with the defaults' variables goes out with those variables verbatim, since the send button only knows the lower-case placeholders |
| DefaultTemplates.SubstitutedUnchanged | src/components/tickets/TemplateActionButton.tsx:70-78 | placeholders that no replacement names are kept, so such a text is its own substitution |
| TemplatesPage.Filtered | src/pages/Templates.tsx:150-152 | without a selected status, or with `all`, the list is shown as loaded; otherwise exactly the templates with the selected status are shown, and a missing list stays missing |
| TemplatesPage.FilteredConcat | src/pages/Templates.tsx:150-152 | filtering keeps the list's order, working piece by piece over a concatenation |
| TemplatesPage.FilteredIdempotent | src/pages/Templates.tsx:150-152 | filtering an already filtered list by the same status changes nothing |
| TemplatesPage.SaveRow | src/pages/Templates.tsx:61-71 | a save writes the template's own fields under its id, always active, with missing variables as the empty list |
| TemplatesPage.SaveRowRoundTrip | src/pages/Templates.tsx:61-71 | saving the template a stored active row shows writes that very row back |
| TemplatesPage.IndexOf | src/pages/Templates.tsx:73-78 | the lookup finds a row exactly when one carries the id, and it finds the first such row |
| TemplatesPage.Upsert | src/pages/Templates.tsx:73-78 | an upsert on `id` replaces the row with that id in place and keeps the table's size, or appends the row when the id is new; every row with another id stays where it was |
| TemplatesPage.UpsertUnique | src/pages/Templates.tsx:73-78 | an upsert keeps the ids unique |
| TemplatesPage.UpsertIdempotent | src/pages/Templates.tsx:73-78 | saving the same template twice leaves the table as after the first save |
| TemplatesPage.Copy | src/pages/Templates.tsx:269-276 | a copy differs from its original only in a fresh id and in ` (Copy)` appended to the title |
| TemplatesPage.CopyAddsRow | src/pages/Templates.tsx:269-276 | saving a copy under an unused id adds exactly one row at the end and leaves the rest in place |
| TemplatesPage.ImportRow | src/pages/Templates.tsx:98-106 | the import writes what a save would, without an id |
| TemplatesPage.ImportRows | src/pages/Templates.tsx:98-112 | the import writes one id-less active row per template, in order |
| TemplatesPage.ImportDefaults | src/pages/Templates.tsx:95-112 | importing the defaults writes eleven rows carrying each default's title, status, recipient, subject, message and variables |
| TemplatesPage.View | src/pages/Templates.tsx:154-307 | the spinner shows exactly while loading; the import screen exactly when the loaded list is missing or empty; otherwise the cards of the filtered list |
| TemplatesPage.EmptyFilterStillCards | src/pages/Templates.tsx:150-241 | a non-empty list filtered by a status no template has shows an empty card list, not the import screen |
| FileUpload.Accepted | src/components/tickets/FileUploadSection.tsx:13-14 | exactly the chosen files within the size limit are accepted |
| FileUpload.TooLargeMessage | src/components/tickets/FileUploadSection.tsx:17 | the warning is `Some files were too large. Maximum size is `, then the decimal digits of the limit in whole mebibytes, then `MB` |
| FileUpload.DefaultTooLargeMessage | src/components/tickets/FileUploadSection.tsx:11-17 | without a limit from the caller the warning reads `Some files were too large. Maximum size is 5MB` |
| FileUpload.Choose | src/components/tickets/FileUploadSection.tsx:12-21 | a choice appends the accepted files after the ones already listed, and any warning is the size warning |
| FileUpload.WarningIffTooLarge | src/components/tickets/FileUploadSection.tsx:14-18 | the warning appears exactly when some chosen file is over the limit |
| FileUpload.AllFitAllAdded | src/components/tickets/FileUploadSection.tsx:12-21 | a choice whose files all fit adds all of them, in order, with no warning |
| FileUpload.Remove | src/components/tickets/FileUploadSection.tsx:23-27 | removing drops the file at the index and keeps the others in order; an index past the end changes nothing |
| FileUpload.RemoveUndoesAdd | src/components/tickets/FileUploadSection.tsx:20-27 | removing the file just appended restores the list |
| FileUpload.RemoveOne | src/components/tickets/FileUploadSection.tsx:23-27 | removing takes away exactly one copy of the removed file and no other file |
| TicketRemarks.ExtensionParts | src/components/tickets/TicketRemarks.tsx:47 | the extension holds no dot; a name without a dot is its own extension; a name with one is a stem, a dot and the extension |
| TicketRemarks.Extension | src/components/tickets/TicketRemarks.tsx:47 | the extension is an end of the name, and when it is shorter than the name it is preceded by a dot (with ExtensionParts: the text after the last dot, or the whole name) |
| TicketRemarks.AttachmentPath | src/components/tickets/TicketRemarks.tsx:48 | the path is the ticket id, `/`, the drawn identifier and `.`, followed by exactly the file name's extension |
| TicketRemarks.PathParts | src/components/tickets/TicketRemarks.tsx:47-48 | a stored path lies in the ticket's folder, and splitting it at its last dot gives back the folder and identifier and the file's extension |
| TicketRemarks.Paths | src/components/tickets/TicketRemarks.tsx:46-48 | each file gets the path built from the ticket, the identifier drawn for it and its own extension |
| TicketRemarks.Upload | src/components/tickets/TicketRemarks.tsx:45-65 | at most one file is uploaded without an image row; a run without error uploads and records every remaining file |
| TicketRemarks.UploadWrites | src/components/tickets/TicketRemarks.tsx:46-62 | the uploads go to the files' paths in order, and each image row records its file's name and that path |
| TicketRemarks.UploadFromStart | src/components/tickets/TicketRemarks.tsx:45-65 | the loop over all files with freshly drawn paths: file k goes to its own path and its image row records its name and path; no error exactly when every file succeeds, and then every file has an image row |
| TicketRemarks.UploadStops | src/components/tickets/TicketRemarks.tsx:46-65 | the loop ends without error exactly when every file uploads and records; otherwise it stops at the first failing file with that failure's error, after the upload when only the image row failed |
| TicketRemarks.Submit | src/components/tickets/TicketRemarks.tsx:31-79 | a failed remark insert writes nothing else and reports it; otherwise the remark row is written, then the files in order under their paths; the success toast shows exactly when everything succeeded, and only then is the form cleared |
| TicketRemarks.SuccessDisables | src/components/tickets/TicketRemarks.tsx:70-97 | after a successful submit the Add Remark button is disabled |
| TicketRemarks.CanSubmit | src/components/tickets/TicketRemarks.tsx:97 | Add Remark is enabled exactly when a file is attached or the remark has a non-whitespace character |
| TicketRemarks.InsertFirst | src/components/tickets/TicketRemarks.tsx:33-45 | when the remark insert fails no file is uploaded and no image row written |
| Todos.Add | src/components/dashboard/TodoList.tsx:60-91 | a blank title does nothing; otherwise the trimmed title and description, the due date or null, the priority and the user are inserted; success clears and closes the form, failure keeps it |
| Todos.AddClearsThenRefuses | src/components/dashboard/TodoList.tsx:60-91 | submitting again after a successful add inserts nothing, since the form was cleared; an already trimmed title inserts the same row |
| Todos.Toggle | src/components/dashboard/TodoList.tsx:93-108 | an accepted toggle flips the completion flag and nothing else, with a toast naming the new state; a refused one changes nothing |
| Todos.ToggleTwice | src/components/dashboard/TodoList.tsx:93-108 | toggling twice restores the to-do |
| Todos.Delete | src/components/dashboard/TodoList.tsx:110-125 | an accepted delete removes exactly the to-dos with that id and keeps every other; a refused one changes nothing |
| Todos.DeleteCount | src/components/dashboard/TodoList.tsx:110-125 | a delete shortens the list by exactly the number of to-dos carrying the id |

## Left out

- Supabase I/O (queries, inserts, updates, storage uploads, auth sessions, row-level security): each call is a parameter of the operation that makes it, and server-side filters are sequence filters over the rows given.
- Query ordering (`order('created_at')`, `order('name')`): lists keep the order in which the rows are given.
- Rendering, dialogs' open state, navigation calls, React Query caching and invalidation: only the decision each handler makes is modelled.
- Toast texts: a handler's toast is part of its result only in `Customers.Add`, `Todos.Add`, `Todos.Toggle`, `Technicians.Save`, `TicketRemarks.Submit`, `TicketForm.Submit` (its failure text) and `TechnicianDashboard.CheckIn` and `TechnicianDashboard.CheckOut` (their error texts); `TicketCard.Delete` returns whether its write succeeded, which picks its toast. Every other toast is left out, and only the outcome it reports is modelled. That includes the archive and assign toasts of the ticket actions, the status and assignment toasts of `useTicketActions`, the attendance approval, the successful check-in and check-out, the customer and todo deletes, the template save and import, and the technician's comment.
- Dates, times and "today" (date-fns `format`, `differenceInDays`, `new Date()`): days until expiry, today's date and timestamps are inputs.
- Working hours on the attendance page and chart percentages: floating point.
- The monthly ticket chart on the admin dashboard: date bucketing only.
- Property values that are not text: a column holding `null` is read as a missing property, so the model does not tell a `null` template variable (kept by the JSON encoding) from an undefined one (dropped by it); a number, such as an estimate amount, is taken as its text.
- The axios POST to the WhatsApp Graph API, `window.open` and the AI chat: the gateway is a function from request to result; the chat is not part of this model.
- `encodeURIComponent`, `crypto.randomUUID` and the zod `.email()` check: parameters of the operations that use them.
- `toLowerCase`, `toUpperCase`, `trim` and the regular expression `\s`: modelled for ASCII letters and the ASCII whitespace characters only; other Unicode characters are left as they are.
- TemplateActions.ReplaceVariables: the `$&`, `$$` and `` $` `` patterns that a JavaScript replacement string interprets are taken literally, so a value containing `$` is assumed to be inserted as it stands.
- TemplateActions.ReplaceVariables: the placeholder-by-placeholder statement is proved only for messages that split into `{`-free text and brace-free `{…}` tokens; a message with a stray `{`, such as `{{customer_name}}` or `Price {approx`, is not covered by it, although the chained replaces still rewrite it (`TemplateActions.StrayBracesKept` shows one case).
- TemplateActions.ReplaceVariables: the same statement is proved only for contexts whose values contain no `{`; with such a value later replacements may expand it, which `TemplateActions.LaterPlaceholderExpanded` shows for one case.
- FileUpload.TooLargeMessage: renders the limit in whole mebibytes; JavaScript prints a fractional size such as `2.5`, which neither caller of the picker passes.
- TemplateActions.WaUrlPhone: reading the phone back out of the link is proved only for phones without `?`.
- TemplateActions.WaUrl: reading the phone and the message back out of the link is promised only for phones without `?`; with one, the first `?` of the phone would be taken as the start of the query.
- TemplateActions.SendLink: the phone and message parts are promised only for a normalised mobile without `?`, for the same reason.
- The debounce and search hooks (`useDebounceSearch`, `useCustomerSearch`): timing and query building only.
- The SQL migration strings of the technician dashboard and the XLSX export of the attendance report (file writing and cell styling); the report rows and column widths are modelled.
- The application shell's `checkUser` loading screen and the settings and ticket-edit pages: not part of this model.
- TicketCard's edit action: only navigation.
- Routes.CheckAuth: gives the guard's state once the profile answer is in; the state between the session answer and the profile answer is stated only by `Routes.PageBeforeRedirect`.
- Concurrent updates: the code has no concurrency control, so every operation is modelled as one step on a snapshot.
- The generated Supabase type definitions: used only for the database's status enum.
