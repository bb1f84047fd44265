# A verified model of the poison-bot Discord bot

poison-bot is a Python Discord bot made of many cogs: giveaways with
synthetic ("fake") reactions and forced winners, a quarantine/mute engine
with appeals (plus an older quarantine cog), a matchmaking queue, prize
drops, bulk pings, anonymous confessions, voice-channel roles, a media-only
channel filter, sticky messages, thread auto-creation, AFK status,
autoresponses, custom role commands, emoji stealing, purge, snipe,
greetings, verification tickets, a custom ban command, and the bot's own
command gating and cog loader in `main.py`.

This project models the decision logic and the state changes of those cogs
in Dafny and proves what they promise. It has one module per source file,
named after the file, and a `Common` module for shared string and sequence
helpers (ASCII case folding, stripping, splitting, digit parsing, `replace`).

How the model abstracts the bot:

- Database tables and collections become `map`s and `seq`s, held as fields
  of a class wherever the cog updates them in place. Each handler is one
  atomic step; concurrency is left out (see "## Left out").
- Discord and database calls are parameters. A boolean says whether a send
  or a write succeeded, and an outcome function or sequence gives what each
  retry attempt returns (success, rate limit, Forbidden, NotFound, HTTP error).
- Time is an integer `now` in seconds. Wherever the cog draws at random, the
  choice is a parameter constrained by a `requires` to what the draw can
  return.
- Where the source is pure (parsers, formatters, permission checks), the
  model is a function with lemmas. Where it loops or mutates, the model is a
  method with loop invariants, proved against a specification function whose
  properties are proved as lemmas.

Where the code as written does something its authors evidently did not
intend, the model keeps the code as written next to a corrected version, and
"## Findings" lists both.

## Model

| member | source | states |
|---|---|---|
| Afk.AgoOf | cogs/afk_cog.py:61-73 | under a minute shows seconds, then whole minutes under an hour, hours and minutes under a day, and days and hours beyond, each the truncated part of the time |
| Afk.AgoForms | cogs/afk_cog.py:64-73 | the thresholds between the forms are one minute, one hour and one day |
| Afk.FormatTimeAgo | cogs/afk_cog.py:61-73 | every form ends in " ago" |
| Afk.Cleaned | cogs/afk_cog.py:308-321 | exactly the cache entries at most an hour old stay, unchanged |
| Afk.CleanHarmless | cogs/afk_cog.py:308-364 | cleaning the cache never changes a later answer about any member |
| Afk.ServerScopeStaysHome | cogs/afk_cog.py:520-544 | a server-scoped AFK applies in its own server and nowhere else, direct messages included |
| Afk.AfkNick | cogs/afk_cog.py:387-401 | the AFK nickname starts with the prefix and is at most 32 characters |
| Afk.RenamePlan | cogs/afk_cog.py:393-404 | the global loop renames only members it can rename, each to the prefixed name cut at 32, and remembers the first name it met |
| Afk.RenameAll | cogs/afk_cog.py:393-404 | the loop makes exactly the planned renames |
| Afk.GlobalRemembersFirstName | cogs/afk_cog.py:399-464 | with two renamable servers a global AFK remembers only the first server's name, which both are later given back |
| Afk.RestorePlan | cogs/afk_cog.py:458-464 | the global restore gives the remembered name back only where the member shows the prefix |
| Afk.RestoreAll | cogs/afk_cog.py:458-464 | the loop makes exactly the planned restores |
| Afk.FindGuild | cogs/afk_cog.py:377-453 | the server found has that id, and none only when no server has it |
| Afk.Summary | cogs/afk_cog.py:581-588 | the summary holds exactly the member's mentions since the AFK began, and only its server's when server-scoped |
| Afk.Notified | cogs/afk_cog.py:513-525 | answered mentions are non-bot members with an AFK that applies where the message is |
| Afk.MentionRows | cogs/afk_cog.py:549-560 | one stored mention per answered member, with the content cut at 200 |
| Afk.AfkCog.constructor | cogs/afk_cog.py:250-268 | no cache, no AFK documents and no mentions |
| Afk.AfkCog.CleanCache | cogs/afk_cog.py:308-321 | the cache becomes the cleaned cache and nothing else changes |
| Afk.AfkCog.CleanupMentions | cogs/afk_cog.py:323-336 | mentions more than seven days old are deleted, unless the delete fails |
| Afk.CacheAfterGet | cogs/afk_cog.py:338-364 | a lookup changes only the member's own cache entry, which afterwards exists exactly when the lookup found a record, and is that record |
| Afk.CacheAfterMentions | cogs/afk_cog.py:513-518 | the lookups of `_handle_mentions` touch only the cache entries of mentioned members who are not bots |
| Afk.AfkCog.GetAfkStatus | cogs/afk_cog.py:338-364 | a cache entry at most an hour old is returned; otherwise the stale entry is dropped and the stored document is read and cached, as `CacheAfterGet` says; no later answer at the same time changes |
| Afk.ServerPlan | cogs/afk_cog.py:376-390 | in the named server the name is remembered exactly when the bot may rename the member, the AFK nickname is chosen exactly when the name also lacks the prefix, and the one edit is that nickname in that server, done exactly when the server accepts it |
| Afk.AfkCog.SetAfkStatus | cogs/afk_cog.py:366-437 | the stripped, escaped reason cut at 100 is stored with the scope and time and cached together, or neither is; the stored document holds the remembered name and the AFK nickname of the scope's plan (the global loop, or the named server when its id is truthy), and the edits are that plan's, done even when the write fails |
| Afk.ServerRestore | cogs/afk_cog.py:452-457 | a server-scoped AFK gives the remembered name back in its own server, and only when the server id is truthy, the member is there, a non-empty name is remembered and the bot may manage nicknames |
| Afk.RestoreEdits | cogs/afk_cog.py:447-464 | every edit gives back the remembered, non-empty name; a server-scoped AFK restores at most in its own server; a global one only in servers the bot is in |
| Afk.AfkCog.RemoveAfkStatus | cogs/afk_cog.py:439-476 | the remembered name is given back as the scope says: in the AFK's own server as `ServerRestore` says, or wherever the prefix shows as `RestorePlan` says; the document and the cache entry go, and the answer is whether a document was there; no document means no edit, and an error changes nothing |
| Afk.AfkCog.NoteMention | cogs/afk_cog.py:515-563 | a mention is answered exactly when the member is no bot and an AFK applies here, and stored when the message is in a server |
| Afk.FirstFailedNotice | cogs/afk_cog.py:513-531 | the first mention from a point on that is answered and whose notice cannot be sent, every earlier one being sent or not answered; the end of the list when there is none |
| Afk.FailedNoticeStops | cogs/afk_cog.py:513-531 | a failed notice for an answered mention stops the loop there: at most the mentions up to it are handled |
| Afk.AllNoticesSent | cogs/afk_cog.py:513-531 | when every answered mention's notice goes out, every mention is handled |
| Afk.AfkCog.MentionAt | cogs/afk_cog.py:515-531 | one turn of the loop looks the mention up, records it when answered, and reports a failed notice exactly when the answered mention is the first whose notice fails |
| Afk.AfkCog.HandleMentions | cogs/afk_cog.py:513-531 | the mentions are handled in order up to and including the first answered one whose notice cannot be sent, since that send has no try of its own; each handled qualifying mention is answered and its row stored before its notice; the cache ends as one lookup per handled non-bot mention leaves it; the loop reports whether every notice went out |
| Afk.ReturnEffect | cogs/afk_cog.py:538-611 | no AFK found, one elsewhere, or a "no longer AFK" notice that cannot be sent (line 572, outside any try) changes no document and no mention and leaves the cache as the lookup does; otherwise the AFK ends, its document and cache entry going when the database answers, and shown mentions delete all of the member's mentions |
| Afk.AfkCog.HandleAfkReturn | cogs/afk_cog.py:538-611 | an AFK that applies here ends once the return notice is sent; the mentions since it began are shown, after which all of the member's mentions are deleted; an AFK elsewhere stays, and a notice that cannot be sent leaves the AFK in place with nothing shown; outcome, cache, documents and mentions are exactly `ReturnEffect`'s |
| Afk.AfkCog.OnMessage | cogs/afk_cog.py:496-511 | bots and commands are left alone and change nothing; otherwise the mentions are handled first, and a mention notice that cannot be sent ends the handler there (the one try around both), skipping the return; when every notice went out, the return's outcome, cache, documents and mentions are `ReturnEffect` of the state the mentions leave |
| Afk.MentionPaginator.constructor | cogs/afk_cog.py:36-42 | the first page is shown with the back button disabled and the forward one enabled (also line 155) |
| Afk.MentionPaginator.Prev | cogs/afk_cog.py:155-176 | only the author moves back, never below the first page, and the buttons then match the page |
| Afk.MentionPaginator.Next | cogs/afk_cog.py:164-176 | only the author moves forward, never past the last page, and the buttons then match the page |
| Appeals.WaitMessage | cogs/quarantine/appeal_system.py:246-249 | the hours and minutes shown are whole hours then whole minutes of the rest, within a minute of the time left |
| Appeals.CanSubmitAppeal | cogs/quarantine/appeal_system.py:236-260 | a member may submit exactly when they have no appeal in the last 24 hours and none pending; a cooldown names the time left of a recent appeal; a pending refusal names the pending appeal |
| Appeals.CooldownBounded | cogs/quarantine/appeal_system.py:245-249 | with no appeal dated in the future the wait shown is at most 24 hours |
| Appeals.CaseCheck | cogs/quarantine/appeal_system.py:275-283 | the case passes exactly when the first document with that case in the guild belongs to the member and is active |
| Appeals.CaseCheckUnique | cogs/quarantine/appeal_system.py:275-283 | with case numbers unique per guild the check is about the one document with that case |
| Appeals.NewAppeal | cogs/quarantine/appeal_system.py:287-300 | the inserted appeal is pending, unreviewed and carries the number, guild, member, case and time |
| Appeals.AppendAppealOk | cogs/quarantine/appeal_system.py:285-303 | an appeal carrying the counter's fresh number keeps the appeal invariant |
| Appeals.BumpAppealOk | cogs/quarantine/appeal_system.py:216-234 | bumping a guild's counter keeps the appeal invariant |
| Appeals.GlobalIndexBlocksSecondGuild | cogs/quarantine/appeal_system.py:43 | the first appeal of a second guild gets number 1 from its own counter and the unique index on appeal_id alone refuses it |
| Appeals.FreshNumberAccepted | cogs/quarantine/appeal_system.py:216-234 | keyed on guild and number, the counter's next number is never refused |
| Appeals.FindAppeal | cogs/quarantine/appeal_system.py:383-385 | the appeal found has that guild and number, and none is found only when there is none; the source looks up the number alone, which only the global unique index keeps unambiguous, so with per-guild numbering the lookup keys on the guild too (see "## Findings") |
| Appeals.Decided | cogs/quarantine/appeal_system.py:391-401 | a reviewed appeal takes the decision's status, names the reviewer and keeps its identity and creation time |
| Appeals.DecideOk | cogs/quarantine/appeal_system.py:391-401 | storing a review keeps the appeal invariant |
| Appeals.StaleUnmuterIsNone | cogs/quarantine/appeal_system.py:407-445 | the appeal the unmute reads was fetched while pending, so the reviewer it stores as the unmuter is None |
| Appeals.UnmuteFromAppeal | cogs/quarantine/appeal_system.py:416-454 | the unmute works exactly when configuration, role and member are there and removal succeeds; it then closes the member's active mutes with the appeal's note and the given unmuter |
| Appeals.ExpireOverdue | cogs/quarantine/appeal_system.py:735-747 | the expiry update keeps every appeal in place |
| Appeals.ExpireEffect | cogs/quarantine/appeal_system.py:735-747 | exactly the pending appeals older than the review timeout change, and they become expired |
| Appeals.ExpireIdempotent | cogs/quarantine/appeal_system.py:735-747 | a second run at the same time changes nothing |
| Appeals.ExpireOk | cogs/quarantine/appeal_system.py:735-747 | expiry keeps the appeal invariant and never touches a settled appeal |
| Appeals.AppealDb.constructor | cogs/quarantine/appeal_system.py:35-38 | no appeals and no counters at first |
| Appeals.AppealDb.NextAppealId | cogs/quarantine/appeal_system.py:216-234 | both the atomic path and the fallback return the counter's new value and store it |
| Appeals.AppealDb.CreateAppeal | cogs/quarantine/appeal_system.py:262-310 | a refusal from the submission check comes first, then the case checks; an appeal is created exactly when both pass and the insert works; the number is drawn whenever both pass |
| Appeals.AppealDb.ProcessReview | cogs/quarantine/appeal_system.py:375-414 | a missing appeal or a settled one is refused; a pending one is stored as decided first, and an approval then unmutes the member naming the reviewer as the unmuter |
| Appeals.AppealDb.ExpireAppeals | cogs/quarantine/appeal_system.py:732-752 | one run expires the overdue appeals, or changes nothing when the update fails |
| Appeals.ReviewedOnce | cogs/quarantine/appeal_system.py:387-388 | once reviewed an appeal is no longer pending, so a second review is refused and expiry leaves it alone (also line 738) |
| Autoresponder.FormatResponse | cogs/autoresponder.py:178-191 | the five placeholders are replaced one after the other, and a response without braces is sent unchanged |
| Autoresponder.UserFilled | cogs/autoresponder.py:181-182 | a {user} placeholder between plain text becomes the author's mention and the text around it stays |
| Autoresponder.Keys | cogs/autoresponder.py:221 | each row's trigger is compared lower-cased and stripped |
| Autoresponder.DeliveredFrom | cogs/autoresponder.py:220-238 | from a given row on, the row delivered is the first matching one whose send works |
| Autoresponder.Delivered | cogs/autoresponder.py:218-238 | the row delivered matches the message exactly and its send works, every earlier matching row failed to send, and none is delivered only when every matching send failed |
| Autoresponder.Respond | cogs/autoresponder.py:220-238 | the trigger loop with its break delivers exactly that row |
| Autoresponder.Shown | cogs/autoresponder.py:362-364 | a response over 200 characters is shown as its first 197 and "...", a shorter one as it is |
| Autoresponder.ListPages | cogs/autoresponder.py:344-376 | the list has ceil(n/5) pages of five, the last possibly shorter, holding every row once and in order |
| Autoresponder.RemoveAt | cogs/autoresponder.py:168-171 | the rows with one deleted and the others in order |
| Autoresponder.RemoveAtValid | cogs/autoresponder.py:168-171 | deleting the row keeps the table well formed and leaves no row of the server with that trigger |
| Autoresponder.AppendValid | cogs/autoresponder.py:144-147 | adding a row with the next id and an unused trigger keeps the table well formed |
| Autoresponder.AutoResponderCog.constructor | cogs/autoresponder.py:49-58 | no rows and no processed messages |
| Autoresponder.AutoResponderCog.GuildRows | cogs/autoresponder.py:115-128 | exactly the server's rows, in increasing id order, none when the read fails |
| Autoresponder.FilterIdOrder | cogs/autoresponder.py:122 | selecting rows of a table kept in id order gives them in id order, as `ORDER BY id` does |
| Autoresponder.AutoResponderCog.AddAutoresponse | cogs/autoresponder.py:130-152 | a trigger the server already has, ignoring case, is refused; otherwise a row with the next id is added; a database error changes nothing |
| Autoresponder.AutoResponderCog.RemoveAutoresponse | cogs/autoresponder.py:154-176 | the server's row with the trigger, ignoring case, is deleted and nothing else; an absent trigger or an error changes nothing |
| Autoresponder.AutoResponderCog.Remember | cogs/autoresponder.py:244-249 | the message id is added, and past 1000 ids the set is cut to 500 of them |
| Autoresponder.AutoResponderCog.OnMessage | cogs/autoresponder.py:193-249 | bots, direct messages and seen ids are skipped; a server without rows returns before remembering the id; otherwise the first matching row whose send works answers, and it matches the message; the id is then remembered as `Remember` does: added, and past 1000 ids the set is cut to 500 of the ids it held |
| Ban.KeptLines | cogs/ban.py:46-55 | the kept lines are non-empty and stripped |
| Ban.KeptLinesExactly | cogs/ban.py:46-55 | exactly the non-blank lines are kept, stripped |
| Ban.LoadedResponses | cogs/ban.py:52-57 | the file's kept lines, or the one default line when the file cannot be read |
| Ban.BlankFileKeepsNothing | cogs/ban.py:55 | a file of blank lines leaves no responses, so the stored response is used (also lines 199-203) |
| Ban.Mention | cogs/ban.py:160-201 | a mention opens with '<' and holds no '[' |
| Ban.MentionFirstReason | cogs/ban.py:158-160 | with the mention written first, the reason is the text after it |
| Ban.MissingMentionLosesText | cogs/ban.py:158-160 | as written, a mention missing from the text makes `find` return -1 and the reason loses its first characters; the corrected reading keeps the whole text |
| Ban.StripEdges | cogs/ban.py:155-160 | `strip()` of text around a core without outer spaces is that core |
| Ban.TrailingSpaceIs | cogs/ban.py:155-160 | the count of trailing spaces |
| Ban.DropIdChars | cogs/ban.py:165-167 | `<`, `>`, `@` and `!` are all dropped |
| Ban.DropIdCharsConcat | cogs/ban.py:165-167 | dropping them distributes over concatenation |
| Ban.DropIdCharsKeepsDigits | cogs/ban.py:165-167 | digits are kept |
| Ban.DropAround | cogs/ban.py:165-167 | a number wrapped in those characters comes out as the number |
| Ban.IdForms | cogs/ban.py:162-169 | a bare id, a mention and a nickname mention all name the same user |
| Ban.ChooseTarget | cogs/ban.py:156-181 | the first mention with the text after it, read by the corrected `Reason` rather than the `find` slice of line 160 (corrected, see "## Findings"); otherwise the first word cleaned of mention characters as an id to fetch, with the other words as the reason, the fetched user carrying no rank so that the role check never applies to it; no word, a bad id or a failed fetch is refused |
| Ban.Template | cogs/ban.py:199-203 | the announcement line is one of the file's lines, or the stored response when there are none |
| Ban.AnnouncementFilled | cogs/ban.py:201-203 | a line with `@user` then `[reason]` gets the mention and the reason |
| Ban.DefaultAnnouncement | cogs/ban.py:57 | the default line reads "<mention> has been banned for <reason>" (also line 201) |
| Ban.PrefixFires | cogs/ban.py:148-149 | any message starting with the command's text fires it, longer words included |
| Ban.Decide | cogs/ban.py:147-205 | a message that does not start with the command is ignored, a non-administrator refused; for an administrator a refused target choice gives its reply, and a chosen target is banned exactly when the bot may ban, the target is ranked below the bot and the ban works; the ban is of that target, with its reason or "No reason provided", and announces the filled line; the reason is the corrected one of `ChooseTarget` (corrected, see "## Findings") |
| Ban.MentionWithoutReason | cogs/ban.py:158-183 | an administrator's command with only a mention bans with "No reason provided" |
| Ban.ConfigFor | cogs/ban.py:127-142 | the cached row, else the table's when it can be read, else none |
| Ban.BanCog.constructor | cogs/ban.py:11-36 | the stored table, an empty cache and the responses file read once |
| Ban.BanCog.LoadResponses | cogs/ban.py:52-57 | the responses become the loaded lines and nothing else changes |
| Ban.BanCog.WatchStep | cogs/ban.py:41-49 | a file newer than the last read replaces the responses; an unreadable or unchanged file changes nothing |
| Ban.BanCog.LoadConfigCache | cogs/ban.py:78-86 | the cache becomes every row when the table can be read |
| Ban.BanCog.SetBan | cogs/ban.py:90-117 | outside a server refused; otherwise the row is inserted or replaced with the placeholder response and cached; a database error changes nothing |
| Ban.BanCog.OnMessage | cogs/ban.py:119-209 | only server messages from humans starting with '.' are handled; a server missing from the cache is looked up and cached when found; then it decides as above, with the corrected reason (corrected, see "## Findings") |
| Ban.SetCommandFires | cogs/ban.py:98-153 | after setting a command it fires for an administrator and is refused to everyone else |
| BulkPing.Humans | cogs/bulkping.py:333 | the members to ping are exactly the role's non-bot members, in role order |
| BulkPing.BatchSize | cogs/bulkping.py:320-321 | a batch size outside 1 to 10 becomes 1 and one inside is kept |
| BulkPing.CheckStart | cogs/bulkping.py:282-371 | the checks run in order administrator, two-second cooldown, an operation already running, a role with humans; the preview is shown exactly when all pass and it plans those humans with a batch size of 1 to 10 |
| BulkPing.PingedEffect | cogs/bulkping.py:461-496 | a run of pings adds exactly the members whose send worked to the pinged ids, counts each of them once, and lists as failed exactly the attempted members whose send or log did not go through |
| BulkPing.Stop | cogs/bulkping.py:444-445 | the members handled before the cancel flag is seen are those up to the first check that sees it (also lines 464-465, 592-593) |
| BulkPing.BatchCount | cogs/bulkping.py:440 | the number of batches is the smallest k with k batches covering the members |
| BulkPing.BatchCountOf | cogs/bulkping.py:440 | that k is the only one |
| BulkPing.Batch | cogs/bulkping.py:447-500 | one batch pings its members in order, each after a check of the flag, and stops at the first check that sees it |
| BulkPing.MainPass | cogs/bulkping.py:438-546 | the first pass pings the members up to the cancel point in batches, starts the number of batches that cover them, and saves the progress before each batch |
| BulkPing.RetryPass | cogs/bulkping.py:574-643 | the retry pass pings again, in order and up to the cancel point, each failed id not pinged since that is still in the guild, and records a failure for one that is gone |
| BulkPing.RetryList | cogs/bulkping.py:549 | the retry list is exactly the failed ids not pinged since |
| BulkPing.AfterRun | cogs/bulkping.py:451-455 | a run changes only the operation's status and progress fields (also lines 637-641, 655-659) |
| BulkPing.AfterRunStatus | cogs/bulkping.py:650-659 | the final status is cancelled exactly when the flag was set and completed otherwise, with the final count |
| BulkPing.RetryTargetsFailures | cogs/bulkping.py:548-602 | the retry pings only ids that failed and were not pinged in the first pass, its failures come from that list, and an id no longer in the guild stays failed |
| BulkPing.FreshRunCount | cogs/bulkping.py:387-393 | from nothing pinged the count equals the number of distinct members pinged, all from the list, so it never exceeds the total shown (also lines 476-477) |
| BulkPing.Run | cogs/bulkping.py:374-572 | the passes return the final progress and leave the operation row as the run function says |
| BulkPing.DmDueAsWritten | cogs/bulkping.py:681-682 | as written the DM is due exactly when the bare operation id was not seen before, and the id is recorded |
| BulkPing.SharedOpIdSkipsDm | cogs/bulkping.py:43-45 | operation 1 of one guild suppresses the DM of operation 1 of another guild, since each guild numbers its own operations (also lines 69, 681-682) |
| BulkPing.DmDue | cogs/bulkping.py:681-682 | keyed on guild and operation, the DM is due exactly when that operation has not had one |
| BulkPing.DmOncePerOperation | cogs/bulkping.py:681-682 | a DM is never sent twice for one operation, and another guild's operation of the same number still gets one |
| BulkPing.BulkPingCog.constructor | cogs/bulkping.py:18-35 | no operations running, no DM tracked and no cooldowns |
| BulkPing.BulkPingCog.RequestBulkPing | cogs/bulkping.py:282-371 | the reply is the result of the checks; the cooldown is recorded only when the preview is shown and nothing else changes (also lines 115-127) |
| BulkPing.BulkPingCog.Execute | cogs/bulkping.py:374-572 | the operation row ends as the run leaves it; the analytics report the totals, the final count, the failures, the status and whether the DM is due; the operation is tracked and the guild leaves the running tables (also lines 645-690) |
| BulkPing.BulkPingCog.NextOpId | cogs/bulkping.py:153 | the guild's next operation number is positive and above every stored one of that guild |
| BulkPing.BulkPingCog.Start | cogs/bulkping.py:752-786 | the operation is stored as running with nothing pinged under a new number of the guild, the guild is marked as running it, and its cancel flag starts false as the started task stores it (also lines 130-157 and 432-436) |
| BulkPing.BulkPingCog.Resume | cogs/bulkping.py:217-279 | a guild already running is skipped; a missing channel, role or log channel marks the operation failed; no remaining humans marks it completed; otherwise the run resumes over the humans not yet pinged, which records its DM and drops the guild's cancel flag; a skipped or marked operation leaves DM tracking and cancel flags alone, and no call changes operation numbering or cooldowns |
| BulkPing.BulkPingCog.CancelOperation | cogs/bulkping.py:717-723 | a guild with a stored operation state gets its flag set to true; a guild without one keeps the table as it was; nothing else changes |
| BulkPing.BulkPingCog.Cleanup | cogs/bulkping.py:725-735 | finished tasks leave the running table and the DM tracking is cleared past 1000 entries; operations, cancel flags, numbering and cooldowns stay |
| Confess.Reported | cogs/confess.py:89-100 | the conditional update matches exactly when the member has not reported the confession; it then adds the reporter and counts one more report, keeping the count equal to the reporters |
| Confess.ReportOnce | cogs/confess.py:93 | a second report by the same member never matches |
| Confess.ThresholdNeedsThreeReporters | cogs/confess.py:179 | from no reports, reaching the ban threshold takes three distinct reporters |
| Confess.RemoveFirst | cogs/confess.py:453 | the first occurrence of the id is removed, every other id stays, and a list without duplicates loses the id entirely |
| Confess.ParseAction | cogs/confess.py:447-457 | the action is ban or unban exactly when its lower-case form is that word, and anything else is refused |
| Confess.Applied | cogs/confess.py:447-453 | ban makes the member listed, unban unlists a member of a list without duplicates, no other id changes and no duplicate appears |
| Confess.AppliedIdempotent | cogs/confess.py:448-452 | repeating ban or unban changes nothing |
| Confess.WithHash | cogs/confess.py:418-419 | the colour starts with '#', added only when missing |
| Confess.Configured | cogs/confess.py:408-425 | a copy of the settings where a given channel or log channel replaces the stored one and a given colour is stored with its '#'; an unparsable colour refuses the whole change |
| Confess.StoredColourValid | cogs/confess.py:416-422 | a stored colour always starts with '#' and parses |
| Confess.Merge | cogs/confess.py:54-58 | the document after a `$set` holds the stored keys and the new ones |
| Confess.MergeCovering | cogs/confess.py:54-58 | settings holding every stored key replace the document as they are, and empty settings leave it |
| Confess.MergeTwice | cogs/confess.py:54-58 | writing the same settings again changes nothing more |
| Confess.ConfiguredKeepsKeys | cogs/confess.py:408-409 | the settings command's copy keeps every key it read |
| Confess.SetupAfterRead | cogs/confess.py:33-61 | after a read that found the document the stored and cached settings agree; after a failed read the stored ban list survives while the cached settings hold none (also lines 408-427) |
| Confess.BanAfterFailedRead | cogs/confess.py:444-460 | after a failed read a ban stores a list of that member alone, replacing whatever list was stored (also lines 47-48, 54-58) |
| Confess.ConfigManager.constructor | cogs/confess.py:24-31 | an empty cache with no settings and no confessions stored |
| Confess.ConfigManager.Read | cogs/confess.py:33-48 | a cache entry younger than 60 seconds is returned as is; any settings that are not empty come from that entry or from the stored document of a read that worked |
| Confess.ConfigManager.CacheAfterRead | cogs/confess.py:33-48 | after a read that worked or a cache hit, the server's entry holds what the read returned and is fresh; other servers' entries are untouched, and a failed read caches nothing |
| Confess.ConfigManager.GetGuildSettings | cogs/confess.py:33-48 | a cache entry younger than 60 seconds is returned; otherwise the stored document, or no settings, is read and cached now; a read error returns no settings and caches nothing; the result is the cache's own object exactly when it came from the cache or the database |
| Confess.ConfigManager.UpdateGuildSettings | cogs/confess.py:50-61 | the keys the settings hold are set on the stored document and its other keys stay, while the cache gets the settings themselves with the current time; an error changes nothing |
| Confess.ConfigManager.MutateCached | cogs/confess.py:183-185 | a change to the returned ban list lands in the cache entry itself, before any write (also lines 444-453) |
| Confess.ConfigManager.AddConfessionReport | cogs/confess.py:83-111 | a new reporter adds one report and gets the new count; a repeat or a missing confession is a duplicate with the current count or 0; a read error gives 0 and not a duplicate, changing nothing |
| Confess.ConfigManager.Report | cogs/confess.py:137-198 | a message without an embed changes nothing; when a log channel is configured and present, a report embed that cannot be sent there (line 164, outside any try) ends the handler with no report recorded and only the settings read cached; a repeat reporter is told so; the confession gains the reporter exactly when the report is new; only at three reports or more is the confession removed, and then an author missing from the ban list of the settings read is appended to it, in the cached object when it holds that list, and those settings are set on the stored document and cached; every other case leaves the settings as the read left them |
| Confess.ConfigManager.ConfessBan | cogs/confess.py:436-461 | an action other than ban or unban is refused and saves nothing; otherwise the settings read with the changed list are set in the cached object and then on the stored document and in the cache, so the stored and cached lists agree after a write that works, differ only for the member, ban lists them and unban unlists them |
| Confess.ConfigManager.SetupConfess | cogs/confess.py:401-428 | an unparsable colour is refused and saves nothing; otherwise the settings read with the given changes are set on the stored document, keeping its other keys, and cached as they are |
| Drops.WinnerCount | cogs/drops.py:160-164 | the winner count is always 1 to 10: an empty or non-numeric field gives 1, a number in range is kept, one below 1 gives 1 and one above 10 gives 10 |
| Drops.PrizeName | cogs/drops.py:156-158 | the prize is accepted exactly when its stripped text is non-empty and at most 100 characters, and then it is that text |
| Drops.LeaderboardSize | cogs/drops.py:567 | the leaderboard size is clamped to 1 to 50 and a size in range is kept |
| Drops.Pruned | cogs/drops.py:361-362 | pruning drops a prefix of claims older than the window and stops at the first claim inside it |
| Drops.ClaimsBy | cogs/drops.py:365 | a member never has more claims than the deque holds |
| Drops.Appended | cogs/drops.py:207 | appending to the 500-entry deque keeps the last entries ending in the new claim, dropping the oldest when full (also line 425) |
| Drops.PrunedIsWindow | cogs/drops.py:357-362 | with claims in time order every claim left is inside the last minute |
| Drops.PrunedIdempotent | cogs/drops.py:361-362 | pruning twice at one time is pruning once |
| Drops.CooldownLeft | cogs/drops.py:336-347 | a member is on cooldown exactly when they won less than 24 hours ago, and the time left is positive and ends 24 hours after the win |
| Drops.WinStartsCooldown | cogs/drops.py:341-410 | after a win the member is on cooldown exactly until 24 hours have passed |
| Drops.Clock | cogs/drops.py:391-393 | the hours, minutes and seconds shown add up to the time left, with minutes and seconds under 60 |
| Drops.DropSystem.constructor | cogs/drops.py:206-209 | no drops, cooldowns, logs, recent claims or locks |
| Drops.DropSystem.CreateDrop | cogs/drops.py:280-329 | a drop is stored with no winners and not completed exactly when the insert works under a new id; otherwise nothing changes |
| Drops.DropSystem.IsSpam | cogs/drops.py:355-366 | old claims are popped and the member is spamming exactly when five or more of the remaining claims are theirs |
| Drops.DropSystem.IsOnCooldown | cogs/drops.py:331-353 | the answer is the cooldown left, or none on a read error; a lapsed cooldown row is deleted and nothing else changes |
| Drops.DropSystem.Refusal | cogs/drops.py:378-394 | the checks run in order spam, open drop, not yet a winner, no cooldown; none refuses exactly when the claim may go ahead, and a cooldown refusal shows the exact time left |
| Drops.ReachesCooldown | cogs/drops.py:380-394 | the spam, open-drop and not-yet-won checks that precede the cooldown are exactly what a member without a cooldown row must pass to claim |
| Drops.DropSystem.RecordWin | cogs/drops.py:396-430 | the member joins the winners, the cooldown starts now, the claim is logged and remembered, and a completed drop frees its lock |
| Drops.CooldownChecked | cogs/drops.py:331-353 | after the cooldown check a lapsed cooldown row is gone, a live one or a read error keeps the cooldowns |
| Drops.DropSystem.HandleClaim | cogs/drops.py:368-432 | a claim succeeds exactly when every check passes and the writes work; it then updates drop, cooldown, log and recent claims, and a refused claim changes only the pruned deque and, when it got past the spam, open-drop and winner checks, deletes a lapsed cooldown as `CooldownChecked` says |
| Drops.ForgetThenSet | cogs/drops.py:349-410 | deleting an expired cooldown before setting it again leaves the same cooldowns as setting it |
| Drops.PopOld | cogs/drops.py:361-362 | the popping loop yields exactly the pruned deque |
| Drops.Awarded | cogs/drops.py:397-398 | a win adds the member to the winners and completes the drop exactly when the count is reached |
| Drops.WinnersInClaimOrder | cogs/drops.py:378-430 | a drop for k winners goes to its first k distinct claimers in claim order and completes exactly when k have claimed |
| GiveawayAdmin.FakeIdOriginal | cogs/giveaways/giveaway_admin.py:238 | for a member id of digits, the entries list recovers the member from the synthetic id `<member>_fake_<k>` |
| GiveawayAdmin.Available | cogs/giveaways/giveaway_admin.py:231-235 | `available` holds only members; it is the unused members while any is left and every member otherwise, and is empty only when there are no members |
| GiveawayAdmin.FakeMemberChoice | cogs/giveaways/giveaway_admin.py:233-237 | the member `random.choice` picks is a member, and an unused one while any is left |
| GiveawayAdmin.FakeMemberReachable | cogs/giveaways/giveaway_admin.py:233-237 | every member the rule allows can be the one picked |
| GiveawayAdmin.PassRows | cogs/giveaways/giveaway_admin.py:238-255 | a pass inserts at most the one synthetic row, and only when its key is new, so keys stay unique |
| GiveawayAdmin.FakeIdFakeOf | cogs/giveaways/giveaway_admin.py:238 | a synthetic id made in pass n of a total is recognised as a fake of its member |
| GiveawayAdmin.NextRows | cogs/giveaways/giveaway_admin.py:224-257 | after pass k the table has grown by at most one synthetic entry and keys stay unique |
| GiveawayAdmin.ExtendsTrans | cogs/giveaways/giveaway_admin.py:208-277 | growth by synthetic entries over successive passes composes, the pass counts adding up |
| GiveawayAdmin.ExtendsStep | cogs/giveaways/giveaway_admin.py:224-257 | one pass grows the table by at most one synthetic entry of a member |
| GiveawayAdmin.Outcome | cogs/giveaways/giveaway_admin.py:207-277 | a run ends with no more than it started with remaining, and completed, cancelled or failed |
| GiveawayAdmin.FillLoop | cogs/giveaways/giveaway_admin.py:207-292 | the fill loop's end and remaining count are those Outcome gives; an inactive giveaway gets no rows; the rows only grow by synthetic entries, keys unique |
| GiveawayAdmin.FillLoopStops | cogs/giveaways/giveaway_admin.py:209-222 | a pass that stops before inserting leaves the rows and the counter as they were |
| GiveawayAdmin.FillLoopLastPass | cogs/giveaways/giveaway_admin.py:257-276 | a pass that inserts and then fails to edit, or whose next delay would overshoot the end, is the last |
| GiveawayAdmin.FillLoopGoesOn | cogs/giveaways/giveaway_admin.py:257-277 | a smooth pass hands the grown rows to the next pass with one less remaining |
| GiveawayAdmin.FillLoopRunsOut | cogs/giveaways/giveaway_admin.py:208-292 | a run that is never interrupted goes through all its passes and completes with nothing left |
| GiveawayAdmin.FakeRowIds | cogs/giveaways/giveaway_admin.py:280-284 | `fake_list` holds exactly the ids of the giveaway's fake rows, in table order |
| GiveawayAdmin.CountedStep | cogs/giveaways/giveaway_admin.py:257-261 | persisting one more pass's counter overwrites the previous pass's counter |
| GiveawayAdmin.UpdatePlan | cogs/giveaways/giveaway_admin.py:258-261 | an UPDATE on the plans table changes only the row of that message and nothing when there is none |
| GiveawayAdmin.ResumeAsWrittenOvershoots | cogs/giveaways/giveaway_admin.py:76-80 | a plan for 2 reactions with 1 left and one synthetic entry stored is resumed with the total, 2 passes, and ends with 3 fake entries |
| GiveawayAdmin.FakeCountAppend | cogs/giveaways/giveaway_admin.py:280-284 | appending fake rows adds their number to the fake count |
| GiveawayAdmin.ResumeWithinTotal | cogs/giveaways/giveaway_admin.py:76-80 | resumed with the count it has left, a plan whose entries and remaining count fit its total keeps its fake entries within the total |
| GiveawayAdmin.MentionLen | cogs/giveaways/giveaway_admin.py:341 | a match of `<@!?(\d+)>` at the start of the text has length at least 4, starts with `<@` and ends with `>` |
| GiveawayAdmin.MentionDigits | cogs/giveaways/giveaway_admin.py:341 | the captured group of a mention is a digit string |
| GiveawayAdmin.ScanMentions | cogs/giveaways/giveaway_admin.py:341-344 | one left-to-right scan yields the ids findall captures and the text re.sub leaves |
| GiveawayAdmin.DigitTokens | cogs/giveaways/giveaway_admin.py:342-346 | the plain ids are the stripped comma-separated pieces that are digit strings |
| GiveawayAdmin.NamedIds | cogs/giveaways/giveaway_admin.py:341-346 | the named ids are the mention ids followed by the plain ids |
| GiveawayAdmin.ForcedIds | cogs/giveaways/giveaway_admin.py:347 | `list({*mention_ids, *plain_ids})` lists every named id exactly once, in the environment's set order |
| GiveawayAdmin.ForcedIdsDigits | cogs/giveaways/giveaway_admin.py:341-347 | every forced id is a digit string |
| GiveawayAdmin.ArrangeComplete | cogs/giveaways/giveaway_admin.py:347 | any order of the named ids is one `list(set)` can produce |
| GiveawayAdmin.MentionsRoundTrip | cogs/giveaways/giveaway_admin.py:415-417 | reading the ids back from the confirmation "Forced winners set: <@a>, <@b>" gives the forced ids |
| GiveawayAdmin.ScanPlain | cogs/giveaways/giveaway_admin.py:344 | a character that starts no mention is kept in the text |
| GiveawayAdmin.ForcedIdsExample | cogs/giveaways/giveaway_admin.py:341-347 | `<@!12>, 7` names the mention id 12 and the plain id 7 |
| GiveawayAdmin.LookupCheck | cogs/giveaways/giveaway_admin.py:371-378 | the reply names the first id fetch_user cannot find, and there is none when all are found |
| GiveawayAdmin.MarkForced | cogs/giveaways/giveaway_admin.py:405-413 | marking sets is_forced on that message's row of that user and keeps every other field and row |
| GiveawayAdmin.ForceOne | cogs/giveaways/giveaway_admin.py:387-413 | an existing row is marked forced; an id without a row gets a forced real row |
| GiveawayAdmin.ForceOneSound | cogs/giveaways/giveaway_admin.py:387-413 | after one id its row is forced, a real one was inserted only when it had none, and nothing else changes |
| GiveawayAdmin.ForceRows | cogs/giveaways/giveaway_admin.py:386-413 | the second loop applies the per-id step to the ids in order |
| GiveawayAdmin.ExtensionTrans | cogs/giveaways/giveaway_admin.py:386-413 | forced extensions compose over the id list |
| GiveawayAdmin.ForceRowsExtension | cogs/giveaways/giveaway_admin.py:386-413 | force_winner only marks rows of named ids and appends forced real rows for them |
| GiveawayAdmin.ForceRowsForced | cogs/giveaways/giveaway_admin.py:386-413 | after force_winner every named id has a forced row |
| GiveawayAdmin.ForceRowsReal | cogs/giveaways/giveaway_admin.py:386-413 | after force_winner every named id without a fake row has a real row |
| GiveawayAdmin.ForceRowsSound | cogs/giveaways/giveaway_admin.py:386-413 | every forced id has a forced row, every id without a fake row has a real row, and the table grows only by forced real rows of those ids |
| GiveawayAdmin.ForcedInDrawPool | cogs/giveaways/giveaway_admin.py:386-413 | a forced id other than the bot with no fake row is in the draw pool of end_giveaway afterwards |
| GiveawayAdmin.SweepStep | cogs/giveaways/giveaway_admin.py:50-82 | one step of the sweep keeps the set of plans |
| GiveawayAdmin.SweepPlans | cogs/giveaways/giveaway_admin.py:46-82 | the sweep over the query's plans keeps the set of plans |
| GiveawayAdmin.SweepStepOthers | cogs/giveaways/giveaway_admin.py:50-82 | a step on one plan leaves every other plan and its registration alone |
| GiveawayAdmin.SweepStepLaunch | cogs/giveaways/giveaway_admin.py:76-82 | a step registers and starts a run exactly when its plan is resumable |
| GiveawayAdmin.SweepStepRest | cogs/giveaways/giveaway_admin.py:50-82 | after the first step the rest of the order is still a sweep over unchanged plans |
| GiveawayAdmin.SweepPlansRows | cogs/giveaways/giveaway_admin.py:50-66 | the sweep cancels exactly the stale plans among those it visits and leaves every other plan row as it was |
| GiveawayAdmin.SweepPlansTasks | cogs/giveaways/giveaway_admin.py:52-82 | the sweep registers exactly the resumable plans among those it visits |
| GiveawayAdmin.ResumableSplit | cogs/giveaways/giveaway_admin.py:50-82 | the resumable plans of an order split into its head and the rest |
| GiveawayAdmin.SweepStepLaunches | cogs/giveaways/giveaway_admin.py:50-82 | the runs started by the first step and by the rest add up to those of the whole order |
| GiveawayAdmin.SweepPlansLaunched | cogs/giveaways/giveaway_admin.py:50-82 | the runs the sweep starts are those Launches lists, in the query's order |
| GiveawayAdmin.LaunchesFrame | cogs/giveaways/giveaway_admin.py:50-82 | which runs start depends only on the visited plans and their registration |
| GiveawayAdmin.LaunchesResumable | cogs/giveaways/giveaway_admin.py:72-82 | every run the sweep starts is for a resumable plan, with members, and with what that plan has left and its end time |
| GiveawayAdmin.AdminCog.constructor | cogs/giveaways/giveaway_admin.py:17-21 | no fill is registered, cancelled or started |
| GiveawayAdmin.AdminCog.FillGiveaway | cogs/giveaways/giveaway_admin.py:93-179 | a fill succeeds exactly for counts and minutes in range on an active giveaway whose message is reachable and whose guild has members; it then writes a plan with the whole total remaining, ends now plus the minutes, cancels a running fill and starts a run; a failure writes nothing |
| GiveawayAdmin.AdminCog.AddFakeReactions | cogs/giveaways/giveaway_admin.py:181-314 | the run follows the fill loop, persists the counter, writes the completed, cancelled or error status the loop ends with, and leaves the registry |
| GiveawayAdmin.AdminCog.RunFill | cogs/giveaways/giveaway_admin.py:207-277 | the while loop yields the rows, counter and ending of FillLoop and persists the counter of every pass |
| GiveawayAdmin.AdminCog.FakePass | cogs/giveaways/giveaway_admin.py:224-261 | one pass adds the picked member's synthetic entry unless its key exists and persists the passes left |
| GiveawayAdmin.AdminCog.ProcessFakeReactions | cogs/giveaways/giveaway_admin.py:35-85 | the sweep's new plan rows, registrations and started runs are those SweepPlans gives, where a resumed run is given the remaining count and not the total (the corrected resume of "## Findings"); nothing happens when the system is down |
| GiveawayAdmin.AdminCog.CheckUsers | cogs/giveaways/giveaway_admin.py:371-378 | the loop stops at the first id fetch_user cannot find, as LookupCheck says |
| GiveawayAdmin.AdminCog.ApplyForced | cogs/giveaways/giveaway_admin.py:386-413 | the loop leaves the participants ForceRows gives |
| GiveawayAdmin.AdminCog.ForceWinner | cogs/giveaways/giveaway_admin.py:322-424 | force_winner succeeds exactly when ids were named, the giveaway is active, its message is reachable and every user exists; it then stores the id list and makes each a forced entry; with no id it gives the "Please mention users" reply |
| GiveawayAdmin.AdminCog.CancelGiveaway | cogs/giveaways/giveaway_admin.py:432-515 | only an active giveaway whose channel and message are reached is cancelled with the reason, "Cancelled by administrator" by default; a registered fill is sent cancel and its plan marked cancelled |
| GiveawayCore.DurationMatches | cogs/giveaways/giveaway_core.py:522-524 | every match that findall of `(\d+)([smhdw])` returns has a unit among s, m, h, d, w |
| GiveawayCore.ParseDuration | cogs/giveaways/giveaway_core.py:522-529 | an accepted duration lies between the minimum and maximum; a text with no match is refused |
| GiveawayCore.ValidateStart | cogs/giveaways/giveaway_core.py:519-529 | the start command is accepted exactly when the winner count is in range and the duration parses; the result is then the parsed duration |
| GiveawayCore.ParseDurationHourMinute | cogs/giveaways/giveaway_core.py:522-527 | "1H30m" is lower-cased and parses to 5400 seconds |
| GiveawayCore.ParseDurationNoUnit | cogs/giveaways/giveaway_core.py:524-526 | a number without a unit letter is refused |
| GiveawayCore.ParseDurationTooShort | cogs/giveaways/giveaway_core.py:528-529 | "5s" is below the minimum duration and is refused |
| GiveawayCore.FmtDur | cogs/giveaways/giveaway_core.py:534-542 | the loop of fmt_dur renders exactly the canonical day/hour/minute/second parts of its argument |
| GiveawayCore.SplitStep | cogs/giveaways/giveaway_core.py:536-539 | one loop step emits count and label when the remainder reaches the unit, and otherwise skips the unit |
| GiveawayCore.SplitUnitsTotal | cogs/giveaways/giveaway_core.py:534-541 | the parts fmt_dur emits add back up to the seconds it was given |
| GiveawayCore.SplitUnitsParts | cogs/giveaways/giveaway_core.py:534-541 | every part emitted has a non-zero count of d, h, m or s, no larger than the first unit tried |
| GiveawayCore.SplitUnitsDescend | cogs/giveaways/giveaway_core.py:534-541 | the parts come in strictly decreasing units |
| GiveawayCore.SplitUnitsShape | cogs/giveaways/giveaway_core.py:534-541 | both of those together, for a table of units listed largest first |
| GiveawayCore.DurationPartsCanonical | cogs/giveaways/giveaway_core.py:534-542 | fmt_dur's parts sum to the seconds, have non-zero counts, use d, h, m, s in strictly decreasing order, and are empty only for zero |
| GiveawayCore.MatchesOfRendered | cogs/giveaways/giveaway_core.py:524 | scanning the space-joined parts with the duration pattern returns the same parts |
| GiveawayCore.MatchesOfRenderedStep | cogs/giveaways/giveaway_core.py:524 | the scan reads the first part's text, skips the space, and goes on with the rest of the rendering |
| GiveawayCore.FmtDurParses | cogs/giveaways/giveaway_core.py:522-543 | the start command accepts the text fmt_dur shows for every duration in range and reads back the same number of seconds |
| GiveawayCore.RowIds | cogs/giveaways/giveaway_core.py:597-599 | the ids read from the participants table are exactly the users with a row for that giveaway |
| GiveawayCore.DrawPool | cogs/giveaways/giveaway_core.py:600-601 | `valid` holds exactly the users other than the bot that have a non-fake row |
| GiveawayCore.FakeCount | cogs/giveaways/giveaway_core.py:603-604 | fake_count is zero exactly when the giveaway has no fake row |
| GiveawayCore.DrawPoolNoDup | cogs/giveaways/giveaway_core.py:601 | with one row per (message, user) the pool has no repeats |
| GiveawayCore.FakeNeverDrawn | cogs/giveaways/giveaway_core.py:601-607 | a user whose row is fake is never in the draw pool and makes fake_count positive |
| GiveawayCore.DrawWithoutForced | cogs/giveaways/giveaway_core.py:618-619 | without forced winners the draw is min(pool size, winners) distinct pool members |
| GiveawayCore.DrawWithoutForcedComplete | cogs/giveaways/giveaway_core.py:618-619 | every distinct choice of that size from the pool is a possible draw |
| GiveawayCore.DrawWithForced | cogs/giveaways/giveaway_core.py:614-617 | forced winners come first, followed by max(0, min(remaining, winners - forced)) distinct draws from the pool without them |
| GiveawayCore.DrawWinners | cogs/giveaways/giveaway_core.py:613-619 | the forced winners come first and nobody outside the forced ids and the pool is drawn |
| GiveawayCore.DrawWinnersSound | cogs/giveaways/giveaway_core.py:613-619 | the first draw holds only forced ids and pool members, without repeats, at most max(winners, forced) of them |
| GiveawayCore.BackfilledSound | cogs/giveaways/giveaway_core.py:621-642 | after verification and backfill every winner was verified, comes from the draw or the pool, none repeats, and there are at most max(winners, draw size) |
| GiveawayCore.VerifiedWinnersSound | cogs/giveaways/giveaway_core.py:609-642 | the winners end_giveaway records were all verified, are forced ids or pool members, are distinct, and number at most max(winners, forced) |
| GiveawayCore.VerifiedWinners | cogs/giveaways/giveaway_core.py:609-642 | every winner recorded passed verification and is a forced id or a pool member |
| GiveawayCore.VerifyCandidates | cogs/giveaways/giveaway_core.py:622-629 | the verification loop keeps exactly the candidates that pass, in order |
| GiveawayCore.ChooseWinners | cogs/giveaways/giveaway_core.py:609-642 | the selection of end_giveaway with its loops yields the winners of the specification |
| GiveawayCore.EndOutcome | cogs/giveaways/giveaway_core.py:579-685 | an active giveaway that is ended is left either ended or in error |
| GiveawayCore.OriginalId | cogs/giveaways/giveaway_core.py:120 | the original user of a fake id is the part before the first "_fake_"; an id without it is its own original |
| GiveawayCore.RealPass | cogs/giveaways/giveaway_core.py:100-110 | the first pass of show_entries lists each row id other than the bot once |
| GiveawayCore.FakePass | cogs/giveaways/giveaway_core.py:112-126 | a fake id is listed only when its original user was not listed yet, and no two listed fakes share an original user |
| GiveawayCore.OriginalIdOfFake | cogs/giveaways/giveaway_core.py:120 | "2_fake_0" belongs to user "2" |
| GiveawayCore.EntriesAsWrittenListsFakeTwice | cogs/giveaways/giveaway_core.py:100-126 | a fake row's id is listed twice, once from the rows and once from the plan, while the participant count is 2 |
| GiveawayCore.RealRowIds | cogs/giveaways/giveaway_core.py:100-110 | the intended first pass reads only non-fake rows |
| GiveawayCore.EntriesShape | cogs/giveaways/giveaway_core.py:95-130 | the entries are the real pass tagged real followed by the fake pass tagged fake |
| GiveawayCore.EntriesRealOnce | cogs/giveaways/giveaway_core.py:95-130 | the real entries are exactly the draw pool, each listed once |
| GiveawayCore.EntriesFakeNotReal | cogs/giveaways/giveaway_core.py:118-126 | no fake entry stands for a user listed as real |
| GiveawayCore.EntriesFakesDistinct | cogs/giveaways/giveaway_core.py:118-126 | no two fake entries stand for the same user |
| GiveawayCore.PageCount | cogs/giveaways/giveaway_core.py:141 | there is at least one page and the pages of 20 entries just cover the total |
| GiveawayCore.EntriesPage | cogs/giveaways/giveaway_core.py:141-145 | the page is clamped into range and its slice holds at most 20 entries, at least one when there are any |
| GiveawayCore.EntryOnOnePage | cogs/giveaways/giveaway_core.py:141-145 | entry k is shown on page k / 20 and on no other |
| GiveawayCore.EntriesButtons | cogs/giveaways/giveaway_core.py:183-191 | first and last are disabled exactly for a single page; previous and next are enabled exactly when that page exists |
| GiveawayCore.RerollDraw | cogs/giveaways/giveaway_core.py:755-760 | the reroll fails exactly when nobody is left besides the previous winners; otherwise it draws min(left, winners) of them |
| GiveawayCore.RerollAsWrittenRepeatsWinner | cogs/giveaways/giveaway_core.py:732-760 | rerolling an active giveaway reads the previous winners before ending it, so it picks again the winner that ending it just announced |
| GiveawayCore.DeleteRow | cogs/giveaways/giveaway_core.py:718-721 | the delete keeps every other row and leaves no row for that message and user |
| GiveawayCore.DeleteRowKeys | cogs/giveaways/giveaway_core.py:718-721 | deleting keeps one row per (message, user) |
| GiveawayCore.GiveawayStore.constructor | cogs/giveaways/giveaway_core.py:254-314 | the tables start empty |
| GiveawayCore.GiveawayStore.StartGiveaway | cogs/giveaways/giveaway_core.py:506-577 | a valid command ends at now plus the duration and inserts an active row with empty winner lists when the database is up; an invalid one changes nothing |
| GiveawayCore.GiveawayStore.EndGiveaway | cogs/giveaways/giveaway_core.py:579-685 | only an active giveaway changes, to the row EndOutcome gives for its pool; the participants stay |
| GiveawayCore.GiveawayStore.EndDue | cogs/giveaways/giveaway_core.py:579-685 | an active giveaway becomes exactly what ending it gives, ended or in error, and every other row stays |
| GiveawayCore.GiveawayStore.CheckGiveaways | cogs/giveaways/giveaway_core.py:487-501 | without the database nothing changes; otherwise every due giveaway becomes exactly what ending it gives, so none stays active, and the others are untouched |
| GiveawayCore.GiveawayStore.OnReactionAdd | cogs/giveaways/giveaway_core.py:688-707 | a real entry is appended for a non-bot user with the giveaway emoji on an active giveaway not already entered; nothing else changes |
| GiveawayCore.GiveawayStore.OnReactionRemove | cogs/giveaways/giveaway_core.py:710-721 | the entry is deleted for a known giveaway whatever its status |
| GiveawayCore.RerollBase | cogs/giveaways/giveaway_core.py:737-738 | the row reroll draws against is never active, and is the stored row itself when that was not active |
| GiveawayCore.RerollOutcomeSound | cogs/giveaways/giveaway_core.py:737-785 | a reroll fails exactly when nobody is left besides the ended row's winners or the message edit fails, and then leaves the ended row; a success is min(left, winners) distinct pool members who were not winners, recorded with the time and the author |
| GiveawayCore.GiveawayStore.RerollFound | cogs/giveaways/giveaway_core.py:737-785 | once the row is found, the reply and the giveaway's new row are exactly RerollOutcome of the old row and pool, and nothing else changes |
| GiveawayCore.GiveawayStore.Reroll | cogs/giveaways/giveaway_core.py:725-788 | without the database, a reply, the message or the giveaway it fails and changes nothing; otherwise an active giveaway is ended first, the reply and the giveaway's new row are those of RerollOutcome, every other giveaway and all entries stay, and a success draws min(left, winners) from the pool without the winners of the ended row |
| GiveawayCore.GiveawayStore.ShowEntries | cogs/giveaways/giveaway_core.py:73-171 | a missing giveaway shows nothing; otherwise the page shown is the slice the page view selects of the corrected entries list, in which a stored fake row is listed once (see "## Findings") |
| GiveawayCore.ListReal | cogs/giveaways/giveaway_core.py:100-110 | the loop over rows produces the real pass and the set of listed users |
| GiveawayCore.ListFakes | cogs/giveaways/giveaway_core.py:113-126 | the loop over the plan's fake ids produces the fake pass |
| Greet.Field | cogs/greet.py:295-299 | exactly the fields user, server and member_count have a value; any other name fails, as an unknown keyword does in Python's format (index and attribute access are under "## Left out") |
| Greet.DoubledBraces | cogs/greet.py:295-299 | "{{" and "}}" each format to one literal brace in front of the rest |
| Greet.FormatPlainPrefix | cogs/greet.py:295-299 | text without braces formats to itself in front of the rest |
| Greet.FormatField | cogs/greet.py:295-299 | a field formats to its value in front of the rest, or the whole template fails |
| Greet.Format | cogs/greet.py:295-299 | `str.format` with the three keywords: a template without braces formats to itself (DoubledBraces, FormatField and UnknownFieldFails beside it state doubled braces, fields and errors) |
| Greet.UserPlaceholder | cogs/greet.py:295-296 | `{user}` between plain text becomes the mention and the text around it stays |
| Greet.UnknownFieldFails | cogs/greet.py:295-299 | a field other than the three makes the whole template fail |
| Greet.LastGreeting | cogs/greet.py:241-249 | the latest greeting time of the user in the channel, and none exactly when there is no greeting |
| Greet.CooldownOver | cogs/greet.py:229-252 | no configuration means no greeting; no earlier greeting means the user may be greeted; otherwise the cooldown must have passed since every earlier greeting |
| Greet.StepFacts | cogs/greet.py:277-337 | a vanished channel loses its row and nothing is logged; a user within the cooldown changes nothing; an attempt is always logged, and the error count grows by one exactly when it failed |
| Greet.AttemptStartsCooldown | cogs/greet.py:289-327 | an attempt, sent or failed, starts the cooldown: a later run before it ends skips the user |
| Greet.Run | cogs/greet.py:277-340 | the loop yields no more outcomes than rows; a format error ends it |
| Greet.RunKeepsOthers | cogs/greet.py:277-337 | a run over a server's channels leaves other servers' rows alone, adds no row, and only appends history |
| Greet.GreetingCog.constructor | cogs/greet.py:17-33 | no configured channels and no history, and the ten default greetings |
| Greet.GreetingCog.GreetEnable | cogs/greet.py:95-154 | refused without send permission; otherwise the row is inserted with error count 0 or its message and cooldown overwritten, and it is enabled; an empty message means the defaults; other rows unchanged |
| Greet.GreetingCog.GreetDisable | cogs/greet.py:159-183 | a missing row is "not enabled"; an existing one is switched off and nothing else changes |
| Greet.GreetingCog.SendGreeting | cogs/greet.py:254-340 | a bot is ignored outside test mode; otherwise each enabled channel of the server, in database order, goes through that step until a template fails (also lines 366-368) |
| Greet.Snapshot | cogs/greet.py:266-272 | the loop receives each enabled channel with its stored message, in order |
| Greet.AbortedStays | cogs/greet.py:295-340 | once a run has stopped, the remaining rows change nothing |
| MainBot.ColonAt | main.py:100 | the key's first colon follows the channel digits |
| MainBot.DigitsBeforeColon | main.py:100 | a key's digit head before a colon is determined by the key |
| MainBot.ResponseIdInjective | main.py:100 | different channels, messages or commands never share a key |
| MainBot.Track | main.py:98-112 | the tracker is emptied once more than 300 seconds have passed since it was last emptied; a key already tracked is refused, any other is tracked and allowed |
| MainBot.SecondCallRefused | main.py:104-111 | within the window, the same command on the same message runs once |
| MainBot.RepeatAfterWindow | main.py:104-106 | once the window has passed, even a repeated key runs again |
| MainBot.ModulePath | main.py:240-246 | a module is `cogs.` with the file's stem last |
| MainBot.ReplaceCharRemoves | main.py:245 | replacing every separator leaves none |
| MainBot.ModuleHasNoSlash | main.py:245-246 | a sub-directory's separators never reach the module name |
| MainBot.TopLevelModule | main.py:240-242 | `ban.py` in the cogs folder loads as `cogs.ban` |
| MainBot.SubfolderModule | main.py:243-246 | a one-level sub-folder is the middle of the dotted name |
| MainBot.ReplaceAbsentChar | main.py:245 | a name without separators is unchanged |
| MainBot.DirModulesComplete | main.py:234-246 | every cog file of a directory is loaded |
| MainBot.DirModulesSound | main.py:234-246 | nothing but cog files is loaded |
| MainBot.ModulesComplete | main.py:230-246 | every cog file, in every directory of the walk, is loaded |
| MainBot.ModulesSound | main.py:227-237 | `config.py`, `__init__.py` and non-`.py` files are skipped in every directory |
| MainBot.DirModulesSnoc | main.py:234-246 | each file adds its module or nothing |
| MainBot.ModulesSnoc | main.py:230-246 | each directory adds its modules in order |
| MainBot.LoadCogs | main.py:221-251 | the modules loaded are those of the walk, in order, and none without the cogs folder |
| MainBot.SyncFrom | main.py:154-167 | the sync loop uses only the outcomes it is given, and only appends waits |
| MainBot.FailuresSnoc | main.py:158-164 | only a failure other than 429 counts |
| MainBot.SyncFacts | main.py:150-167 | every wait is between 1 and 60 seconds; the loop gives up exactly at the third counted failure, and a sync ends it while fewer than three are counted |
| MainBot.SyncWaits | main.py:150-167 | every wait is between 1 and 60 seconds |
| MainBot.SyncEnds | main.py:150-167 | a run that gives up has counted exactly three failures, the last attempt failing; a run that syncs has counted fewer; a run out of attempts has counted fewer |
| MainBot.RateLimitsNotCounted | main.py:159-161 | any number of 429s before three failures still gives up, since rate limits never count |
| MainBot.FailuresToGiveUp | main.py:162-166 | three failures in a row make the loop give up |
| MainBot.SyncCommands | main.py:150-167 | the loop starts from a one-second backoff and computes that run |
| MainBot.DiscordBot.constructor | main.py:70-91 | an empty tracker, last emptied now |
| MainBot.DiscordBot.ShouldRespond | main.py:98-112 | the answer and the new tracker are those of that rule on the key for the channel, message and command |
| MainBot.DiscordBot.Invoke | main.py:114-117 | the command runs only when that rule allows it |
| MainBot.DiscordBot.ProcessCommands | main.py:126-141 | bots, messages without a command and messages within the user's cooldown stop before the check; others go through it |
| Matchmaking.RoleCache.constructor | cogs/match-making.py:178-183 | an empty cache and order with the given size and time to live |
| Matchmaking.RoleCache.GetRoles | cogs/match-making.py:185-221 | a live entry is returned and its id moved to the end; otherwise the lookup's answer is returned, and a found role set is stored, listed last, evicting the oldest listed id once the list is longer than the size |
| Matchmaking.RoleCache.CacheBounded | cogs/match-making.py:214-219 | the cache never holds more members than its size |
| Matchmaking.RemoveFirstEffect | cogs/match-making.py:192-195 | removing an id drops one listed copy when it is there and nothing otherwise, keeping every other id |
| Matchmaking.ExpiredRefreshDuplicates | cogs/match-making.py:189-216 | refreshing an expired entry appends its id a second time, so the order can list one member twice |
| Matchmaking.RefreshOfOldestEvicted | cogs/match-making.py:213-219 | with the cache full, refreshing the oldest listed member evicts the entry just stored while its later copy stays listed |
| Matchmaking.Insert | cogs/match-making.py:873-946 | inserting a row into a sorted queue gives a permutation with one more row |
| Matchmaking.InsertSorted | cogs/match-making.py:873-946 | inserting into a queue sorted by priority descending then join time keeps it sorted |
| Matchmaking.SortQueue | cogs/match-making.py:873-946 | the sorted queue is a permutation of the rows |
| Matchmaking.SortQueueSorted | cogs/match-making.py:873-946 | the sorted queue is ordered by priority descending then join time |
| Matchmaking.Position | cogs/match-making.py:875 | the place is the 1-based index of the member's first row after sorting, or 0 when no row is the member's |
| Matchmaking.PositionZeroIff | cogs/match-making.py:875-878 | the place is 0 exactly when the member has no row |
| Matchmaking.CeilHalf | cogs/match-making.py:882 | the ceiling of half of n |
| Matchmaking.PositionAndEta | cogs/match-making.py:864-886 | an empty guild gives zeros; otherwise the place, the number waiting, and 20 seconds per pair of members ahead with at least one pair, or no wait when the member is absent |
| Matchmaking.EtaMonotone | cogs/match-making.py:881-885 | a place further back never has a shorter wait, and every wait is at least 20 seconds |
| Matchmaking.HigherPriorityAhead | cogs/match-making.py:873-875 | every row with a strictly higher priority is placed ahead of the member |
| Matchmaking.SortedHigherAhead | cogs/match-making.py:946 | in a sorted queue a row of higher priority than place p sits before p |
| Matchmaking.Score | cogs/match-making.py:924-935 | the score is the whole minutes waited, never negative, plus 120 for a member who skipped in the last five minutes |
| Matchmaking.Scored | cogs/match-making.py:924-935 | every candidate keeps its identity and gets its score as priority |
| Matchmaking.AcceptableSymmetric | cogs/match-making.py:979-992 | the pair test does not depend on which member comes first |
| Matchmaking.ScanForPair | cogs/match-making.py:977-993 | the pair returned lies in the scan window, passes every test and no earlier pair of the scan does; none is returned exactly when no pair does |
| Matchmaking.OtherId | cogs/match-making.py:622-628 | the other member found is a listed member of the room unlike the caller; none only when the room is unknown or lists only the caller |
| Matchmaking.SkipVote | cogs/match-making.py:352-360 | the vote is recorded, and the room closes only once another listed member has voted too |
| Matchmaking.DoubleSkipCloses | cogs/match-making.py:352-360 | in a room of two the first vote does not close it and the second does |
| Matchmaking.Upsert | cogs/match-making.py:830-837 | after the upsert the member is queued with the new row, other members' rows stay and no other row appears |
| Matchmaking.UpsertOk | cogs/match-making.py:830-837 | the upsert keeps one row per guild and member |
| Matchmaking.MatchDb.constructor | cogs/match-making.py:38-51 | the tables start empty |
| Matchmaking.MatchDb.Enqueue | cogs/match-making.py:791-862 | invalid guild or member ids are refused first; a queued member found by the lookup is refused; otherwise the member is upserted with priority 0 exactly when one of three attempts works, and the queue is unchanged on every refusal |
| Matchmaking.MatchDb.BlockPair | cogs/match-making.py:1034-1053 | the sorted pair is blocked until now plus the minutes, overwriting an earlier block, exactly when one of three attempts works |
| Matchmaking.MatchDb.ConsumeRoomNumber | cogs/match-making.py:1459-1467 | the stored number, 1 by default, is returned and the next one is written back |
| Matchmaking.CollectMatched | cogs/match-making.py:963-966 | the loop collects exactly both members of every row |
| Matchmaking.RowsGiveRecent | cogs/match-making.py:954-966 | collecting the members of the rows the recent-match query returns gives the recently matched set |
| Matchmaking.RecentlyMatchedIdsIff | cogs/match-making.py:953-966 | a member is in that set exactly when it belongs to an open match of the guild from the last 24 hours whose thread nobody skipped since |
| Matchmaking.MatchDb.DequeuePair | cogs/match-making.py:898-996 | with fewer than two candidates or a failed read nothing is matched; otherwise the guild's lapsed blocks are deleted and the first acceptable pair of the scored, sorted candidates is returned, none exactly when there is none, where the recently matched set is computed from the match and skip tables; neither member of a returned pair is recently matched (also lines 982-984) |
| Matchmaking.LiveBlocks | cogs/match-making.py:950 | exactly the blocks of other guilds and the guild's blocks still in force stay, with their times |
| Matchmaking.BlockSymmetric | cogs/match-making.py:1035 | blocking a with b and b with a store the same row |
| Matchmaking.BlockedPairRejected | cogs/match-making.py:1035-1046 | a pair blocked now cannot be matched, in either order, until the block lapses (also lines 950-956, 981-982) |
| Matchmaking.RoomNumbersConsecutive | cogs/match-making.py:1459-1467 | room numbers start at 1 and follow one another |
| Media.Younger | cogs/media.py:29 | exactly the timestamps younger than the period stay, in order |
| Media.YoungerTwice | cogs/media.py:29 | pruning at one time and again later is pruning at the later time |
| Media.Admit | cogs/media.py:26-35 | a call is allowed exactly when fewer than the limit of recent calls remain, and it is then recorded; the list keeps only recent calls and never grows past the limit |
| Media.AtMostCallsPerWindow | cogs/media.py:26-35 | with a clock that never goes back, the list after any request is exactly the allowed calls of the last period, so at most the limit of calls pass in any window of one period |
| Media.CleanupHarmless | cogs/media.py:29-44 | dropping a channel idle longer than the period changes no later verdict |
| Media.StaleChannels | cogs/media.py:39-42 | the cleanup loop collects exactly the channels with no calls or a last call older than the maximum age |
| Media.RateLimiter.constructor | cogs/media.py:21-24 | the limit and period are stored and no channel has calls |
| Media.RateLimiter.CanProceed | cogs/media.py:26-35 | the verdict and the channel's new list are those of the admission rule, and the bound on every list is kept |
| Media.RateLimiter.Cleanup | cogs/media.py:37-44 | exactly the stale channels are dropped, none remains, and the bound is kept |
| Media.UrlStart | cogs/media.py:131 | a URL found in a token starts inside it |
| Media.UrlPath | cogs/media.py:133 | the path `urlparse` takes from an http(s) URL holds no query or fragment mark, and no `;params` are left after its last '/' |
| Media.StripParamsPlain | cogs/media.py:133 | cutting the path at the first ';' after its last '/' (at the first ';' when it has no '/') leaves no `;params` |
| Media.CheckMedia | cogs/media.py:108-137 | an attachment or an embed with media makes the message media; a message judged otherwise has no attachment and no media embed |
| Media.QueryIgnored | cogs/media.py:131-135 | only a content URL's path is checked: its query string and fragment are dropped, whatever the scheme |
| Media.ParamsIgnored | cogs/media.py:131-135 | the `;params` of an http(s) URL's last path segment are dropped as well, so `https://x.com/a.png;v=1` is checked as `/a.png` |
| Media.NoHttpNoUrl | cogs/media.py:131 | a token without "http" holds no URL |
| Media.Pulled | cogs/media.py:181-185 | pulling removes every copy of the channel and keeps the others and the log channel |
| Media.AddedToSet | cogs/media.py:189-193 | adding to the set lists the channel, keeps the others, and changes nothing when it is already listed |
| Media.ToggleTwice | cogs/media.py:180-195 | toggling a channel twice restores whether it is listed and leaves every other channel as it was |
| Media.ParseAction | cogs/media.py:159-162 | the action is toggle, log or view exactly when its lower-case form is that word |
| Media.MediaCog.constructor | cogs/media.py:47-55 | no cache, a database not yet connected, and a limiter of three calls in ten seconds |
| Media.MediaCog.GetConfig | cogs/media.py:85-100 | a cache entry younger than 60 seconds is returned; otherwise the stored configuration is read and cached, and nothing is read before the database is ready |
| Media.MediaCog.CacheAfterRead | cogs/media.py:85-100 | once the database is ready, the server's entry holds what `_get_config` returned and is fresh; other servers' entries are untouched, and nothing is cached before the database is ready |
| Media.MediaCog.ToggleChannel | cogs/media.py:176-196 | a channel listed in the configuration read is pulled and one not listed is added, the reply says which, and the stored document is cached again |
| Media.MediaCog.SetLogChannel | cogs/media.py:198-215 | a given log channel is set and none clears it, and the stored document is cached again |
| Media.MediaCog.MediaOnlyCommand | cogs/media.py:148-234 | an unknown action is refused first, then a non-administrator, then an unready database; only toggle and log write, a toggle needs a channel, and view shows the configuration `_get_config` reads; a refusal leaves the cache alone, while view and a toggle without a channel leave it as that read does (`CacheAfterRead`) |
| Media.MediaCog.OnMessage | cogs/media.py:245-281 | in a listed channel with Manage Messages, a message by a human is deleted exactly when the limiter admits it and it has no media; any other message stays; a server message by a human leaves the cache as the configuration read does |
| Purge.StripChars | cogs/purge.py:118 | Python's `strip(chars)`: the result is no longer and neither starts nor ends with one of the characters |
| Purge.ParseArg | cogs/purge.py:103-127 | an empty argument asks for one; a digit string purges that many, at most 100, unfiltered; "bots", "humans" and a member's mention purge 50 through their filter; a user filter comes only from a `<@...>` mention of a member |
| Purge.ParseCount | cogs/purge.py:111-112 | a number n purges min(n, 100) messages without filter |
| Purge.ParseMention | cogs/purge.py:116-121 | `<@id>` or `<@!id>` of a member purges 50 of that member's messages |
| Purge.MentionShape | cogs/purge.py:111-116 | a mention is neither a number nor "bots"/"humans", and has the `<@` ... `>` shape |
| Purge.StripMention | cogs/purge.py:118 | stripping `<@!>` from a mention leaves its digits |
| Purge.StripHead | cogs/purge.py:118 | a leading run of stripped characters is skipped |
| Purge.Selected | cogs/purge.py:53-62 | the messages kept are exactly those at most 14 days old that pass the filter |
| Purge.Partition | cogs/purge.py:53-64 | every message is kept, counted as too old or dropped by the filter; without a filter none is dropped |
| Purge.ProcessMessages | cogs/purge.py:45-66 | the loop returns the selection in history order and the too-old count |
| Purge.FetchFacts | cogs/purge.py:22-43 | the fetch waits at most three times, using the Retry-After header or the delay growing by 1.5, keeps what earlier passes yielded and never returns more than the limit |
| Purge.FetchFrom | cogs/purge.py:22-43 | the backoff loop from a given pass: a 429 is retried or ends the loop with what was gathered, so the fetch fails only on a status other than 429 |
| Purge.ThreeRateLimits | cogs/purge.py:29-39 | three rate limits in a row end the fetch with what was gathered and waits of 1, 1.5 and 2.25 seconds, without error |
| Purge.FetchWithBackoff | cogs/purge.py:22-43 | the while loop computes exactly that fetch |
| Purge.BulkFacts | cogs/purge.py:83-98 | once an attempt is made, the bulk loop succeeds exactly when some attempt works after only 429s |
| Purge.Bulk | cogs/purge.py:83-98 | "Max retry attempts reached" comes exactly when no attempt is left; otherwise the loop ends in success or a failure with the error's text, waits fewer times than it has attempts, and waits only after a 429 |
| Purge.SingleOutcome | cogs/purge.py:76-81 | a lone deletion succeeds, fails with a message on an HTTP error, and otherwise raises, each exactly in its own case |
| Purge.DeleteWithRetry | cogs/purge.py:71-98 | nothing to delete fails, one message is deleted on its own and ends as `SingleOutcome` says (a non-HTTP error raises), more go through the bulk loop; success exactly on a deletion |
| Purge.PurgePrefix | cogs/purge.py:100-157 | a missing, invalid or bad-mention argument is answered with its message and nothing is fetched; otherwise the fetch error, "nothing found" with the too-old count, or the deletion's outcome is reported, except that a lone message whose deletion raises a non-HTTP error ends the command with nothing reported |
| Quarantine.BeforeFinalNewline | cogs/quarantine/quarantine_system.py:51-54 | a pattern ending in `$` covers the text itself or the text before one final newline |
| Quarantine.DurationGroups | cogs/quarantine/quarantine_system.py:51-58 | a match of `^(\d+)([smhd])$` is a digit string and a unit letter, optionally followed by one newline, and carries the digits' value |
| Quarantine.DurationGroupsOf | cogs/quarantine/quarantine_system.py:51-58 | a written number followed by a unit, with or without a final newline, matches with that number and unit |
| Quarantine.ParseDuration | cogs/quarantine/quarantine_system.py:53-69 | a duration is accepted exactly when it matches, is positive and is at most 365 days when given in days; its length is the amount times the unit's seconds |
| Quarantine.ParseDurationRoundTrip | cogs/quarantine/quarantine_system.py:53-69 | writing a duration out and parsing it gives its length in seconds, or nothing when it is zero or over 365 days |
| Quarantine.ParseDurationBounded | cogs/quarantine/quarantine_system.py:62-64 | the longest duration in days accepted is 365 days |
| Quarantine.LegacyParseDuration | cogs/quarantine-system.py:49-59 | the legacy parser accepts exactly the texts that match the same pattern |
| Quarantine.LegacyParseAgrees | cogs/quarantine-system.py:49-59 | where the bounded parser accepts, the legacy parser gives the same length; a zero length is accepted by the legacy parser only |
| Quarantine.LegacyAcceptsZero | cogs/quarantine-system.py:49-59 | "0s" is accepted by the legacy parser and refused by the bounded one |
| Quarantine.CanManageMember | cogs/quarantine/quarantine_system.py:200-210 | the bot may manage a member exactly when it is present, has Manage Roles, the target is not the owner and ranks strictly below the bot |
| Quarantine.ActorCanTarget | cogs/quarantine/quarantine_system.py:212-219 | the owner may act on anyone; anyone else only on a non-owner strictly below them |
| Quarantine.ActorCannotTargetSelf | cogs/quarantine/quarantine_system.py:212-219 | nobody but the owner passes the actor check against themselves |
| Quarantine.ActorCheckAntisymmetric | cogs/quarantine/quarantine_system.py:212-219 | two members who are not the owner can never both act on each other |
| Quarantine.OwnerNeverManageable | cogs/quarantine/quarantine_system.py:206-207 | the bot can never manage the owner |
| Quarantine.OverwriteBlocker | cogs/quarantine/quarantine_system.py:191-198 | overwrites can be written exactly when the bot is present and has Manage Channels |
| Quarantine.SucceedsIff | cogs/quarantine/quarantine_system.py:241-265 | a channel's overwrite applies exactly when some attempt within the limit applies after only HTTP errors |
| Quarantine.WritesTo | cogs/quarantine/quarantine_system.py:243-257 | each written channel gets the jail or the hiding overwrite, one write per channel |
| Quarantine.ApplyOne | cogs/quarantine/quarantine_system.py:239-266 | apply_one's loop succeeds exactly when an attempt within the limit applies after only HTTP errors |
| Quarantine.SweepPass | cogs/quarantine/quarantine_system.py:271-274 | a pass writes the channels that succeed, in order, and reports those that fail |
| Quarantine.SweepOutcome | cogs/quarantine/quarantine_system.py:234-274 | the sweep always runs once permitted, and every channel reported as failed is a category or leaf of the guild on which no attempt applied |
| Quarantine.OverwriteSweep | cogs/quarantine/quarantine_system.py:221-276 | without Manage Channels the sweep only reports why; otherwise it is categories then leaf channels |
| Quarantine.SweepCategoriesFirst | cogs/quarantine/quarantine_system.py:268-274 | every write on a category comes before every write on a leaf channel |
| Quarantine.SweepWritesOverwrites | cogs/quarantine/quarantine_system.py:234-274 | every channel written is a category or leaf of the guild, the jail is opened and the rest are hidden |
| Quarantine.SweepFailedIff | cogs/quarantine/quarantine_system.py:241-266 | a category or leaf is reported as failed exactly when no attempt applied after only HTTP errors |
| Quarantine.LegacyRetryIsTwoAttempts | cogs/quarantine-system.py:166-190 | the legacy retry (one more try after an HTTP error) is the sweep's rule with two attempts |
| Quarantine.Bumped | cogs/quarantine/quarantine_system.py:104-110 | the next `$inc` with upsert gives 1 for a new guild and the stored value plus one otherwise |
| Quarantine.FirstActive | cogs/quarantine/quarantine_system.py:564 | `find_one` finds the first active mute of that member, and nothing exactly when there is none |
| Quarantine.DeactivateAllEffect | cogs/quarantine/quarantine_system.py:773-776 | after `update_many` the member has no active mute, nobody else's mutes changed, and the closed ones name the moderator |
| Quarantine.ClosingOk | cogs/quarantine/quarantine_system.py:773-776 | a rewrite that keeps each mute's identity and never reactivates one keeps the mute invariant |
| Quarantine.DeactivateAllOk | cogs/quarantine/quarantine_system.py:773-776 | unmuting keeps the mute invariant (at most one active mute per member, case ids within the counter) |
| Quarantine.BumpOk | cogs/quarantine/quarantine_system.py:101-120 | bumping the counter keeps the mute invariant |
| Quarantine.AppendMuteOk | cogs/quarantine/quarantine_system.py:596-612 | a new document carrying the counter's fresh value, for a member without an active mute, keeps the invariant |
| Quarantine.AppendPendingOk | cogs/quarantine/quarantine_system.py:647-652 | a stored DM deletion with the next id keeps the ids unique |
| Quarantine.FilterPendingOk | cogs/quarantine/quarantine_system.py:132-142 | deleting pending documents keeps the ids unique |
| Quarantine.FlagThenWords | cogs/quarantine/quarantine_system.py:546-550 | `--silent` is taken off exactly when it is the first argument |
| Quarantine.ParseMuteArgs | cogs/quarantine/quarantine_system.py:545-562 | silence is set exactly when the first argument is `--silent`, and a duration found is positive |
| Quarantine.ParseMuteArgsRoundTrip | cogs/quarantine/quarantine_system.py:545-562 | flag, duration and words come back as silence, the duration in seconds and the joined words, or "No reason provided" |
| Quarantine.ParseMuteArgsReasonOnly | cogs/quarantine/quarantine_system.py:561-562 | without a duration every argument after the flag is the reason |
| Quarantine.NewMute | cogs/quarantine/quarantine_system.py:598-610 | the document is active for that guild, member and case, keeps at most 2000 characters of the reason, and expires exactly when a duration was given, at now plus it |
| Quarantine.TickDoc | cogs/quarantine/quarantine_system.py:1113-1150 | a document's turn keeps the mute's identity, never reactivates it, and closes it exactly when the update runs and no HTTP error defers it |
| Quarantine.TickTurn | cogs/quarantine/quarantine_system.py:1114-1183 | one turn of the loop gives the document TickDoc names and logs as TickLogs says |
| Quarantine.TickedAt | cogs/quarantine/quarantine_system.py:1113-1183 | each document is changed by its own turn only, and only when it is due |
| Quarantine.TickAll | cogs/quarantine/quarantine_system.py:1112-1183 | the loop over the query's documents leaves Ticked and logs TickLog |
| Quarantine.TickedOk | cogs/quarantine/quarantine_system.py:1109-1186 | a tick keeps the mute invariant |
| Quarantine.TickLogMembers | cogs/quarantine/quarantine_system.py:1146-1151 | a document is logged exactly when it was due and its turn logs it |
| Quarantine.TickLogsOnce | cogs/quarantine/quarantine_system.py:1146-1151 | a logged document was active and is closed by the tick, so a later tick never logs it again |
| Quarantine.TickRetriesAfterHttpError | cogs/quarantine/quarantine_system.py:1139-1141 | an HTTP error on role removal leaves the mute active and still due at the next tick |
| Quarantine.TickKeepsUndue | cogs/quarantine/quarantine_system.py:1112 | mutes without an expiry, or expiring later, are untouched by a tick |
| Quarantine.RemoveOne | cogs/quarantine/quarantine_system.py:132-137 | deleting by id removes exactly that document from an id-unique collection |
| Quarantine.FindPending | cogs/quarantine/quarantine_system.py:151-153 | `find_one` by id finds a document with that id, and nothing only when there is none |
| Quarantine.KeptIsFilter | cogs/quarantine/quarantine_system.py:128-139 | what the startup pass keeps of the first n documents is those expiring in the future |
| Quarantine.ScheduledMatchesKept | cogs/quarantine/quarantine_system.py:138-139 | the schedule is the kept documents, in order, each with its positive remaining delay |
| Quarantine.ExecutedIsFilter | cogs/quarantine/quarantine_system.py:134-137 | what the startup pass executes is the documents already expired |
| Quarantine.StartupPass | cogs/quarantine/quarantine_system.py:126-144 | the loop over the snapshot keeps the future documents, executes the expired ones and schedules the kept ones |
| Quarantine.StartupMeaning | cogs/quarantine/quarantine_system.py:126-144 | the whole pass keeps, executes and schedules as the filters say |
| Quarantine.StartupStep | cogs/quarantine/quarantine_system.py:129-144 | one document of the startup pass keeps the pass's state |
| Quarantine.StartupDrops | cogs/quarantine/quarantine_system.py:130-137 | a document without an expiry, or an expired one, is dropped, and an expired one runs first |
| Quarantine.StartupSchedules | cogs/quarantine/quarantine_system.py:138-139 | a future document is scheduled with its remaining delay |
| Quarantine.MuteDb.constructor | cogs/quarantine/quarantine_system.py:31-35 | the collections start empty with the given configurations |
| Quarantine.MuteDb.NextCase | cogs/quarantine/quarantine_system.py:101-120 | both the atomic path and the fallback return the counter's new value and store it |
| Quarantine.MuteDb.RecordDmDelete | cogs/quarantine/quarantine_system.py:646-652 | the DM deletion is stored with the next id, expiring ten minutes after now |
| Quarantine.MuteDb.QMute | cogs/quarantine/quarantine_system.py:498-719 | a mute happens exactly when the checks pass in the command's order and the role is added; a refusal changes nothing; a mute draws the next case, stores the document when the insert works, and notes the DM unless silent |
| Quarantine.MuteDb.QUnmute | cogs/quarantine/quarantine_system.py:723-848 | an unmute happens exactly when the checks pass and the member has an active mute; it closes all of their active mutes when the update works and reports the case find_one returned |
| Quarantine.MuteDb.AutoUnmuteTick | cogs/quarantine/quarantine_system.py:1109-1186 | one run of the loop leaves the mutes Ticked and logs TickLog |
| Quarantine.MuteDb.StartupWork | cogs/quarantine/quarantine_system.py:122-146 | pending deletions without expiry are dropped, expired ones executed and dropped, the rest scheduled with their delay; a failed read does nothing |
| Quarantine.MuteDb.DeletePending | cogs/quarantine/quarantine_system.py:157 | `delete_one` by id removes exactly the documents with that id |
| Quarantine.MuteDb.FireScheduledDelete | cogs/quarantine/quarantine_system.py:148-159 | once the delay has passed the stored DM is deleted if its document is still there, and the document is removed either way |
| QuarantineLegacy.LegacyParseMuteArgs | cogs/quarantine-system.py:361-379 | silence is set exactly when the first argument is `--silent`; a duration is kept only when it is positive (`if dur:`) and otherwise every remaining word, or "No reason provided", is the reason |
| QuarantineLegacy.LegacyParseMuteArgsAgrees | cogs/quarantine-system.py:361-379 | the two cogs read the same arguments alike exactly when the first word after the flag is not a day count over 365 |
| QuarantineLegacy.LegacyZeroDurationIsReason | cogs/quarantine-system.py:374-379 | a zero duration is false for `if dur:` and becomes the first word of the reason |
| QuarantineLegacy.LegacyAcceptsLongMute | cogs/quarantine-system.py:49-59 | a day count over 365 is a duration for the legacy cog |
| QuarantineLegacy.CurrentRejectsLongMute | cogs/quarantine/quarantine_system.py:62-64 | the current cog reads the same day count as part of the reason |
| QuarantineLegacy.LongDayWord | cogs/quarantine-system.py:49-59 | a day count over 365 parses under the legacy rule only |
| QuarantineLegacy.LegacyCanManageMember | cogs/quarantine-system.py:192-198 | the legacy check allows exactly a bot with Manage Roles over a target strictly below its top role; without a bot member it fails |
| QuarantineLegacy.LegacyCanManageWeaker | cogs/quarantine-system.py:192-198 | the legacy check passes whenever the current one does and differs only on the owner |
| QuarantineLegacy.LegacyOwnerManageable | cogs/quarantine-system.py:192-198 | the owner passes the legacy check when ranked below the bot, and fails the current one |
| QuarantineLegacy.LegacySweep | cogs/quarantine-system.py:166-190 | the legacy sweep is one pass in channel order with one retry, giving LegacySweepOutcome |
| QuarantineLegacy.LegacySweepOutcome | cogs/quarantine-system.py:166-190 | every channel the legacy sweep reports is a text, voice or forum channel of the guild on which neither the attempt nor the retry applied |
| QuarantineLegacy.LegacySweepWrites | cogs/quarantine-system.py:169-185 | every write goes to a text, voice or forum channel of the guild, never a category; the jail opens and the rest are hidden |
| QuarantineLegacy.LegacySweepFailedIff | cogs/quarantine-system.py:178-189 | a channel is reported exactly when it is a target and neither the first attempt nor the retry applied |
| QuarantineLegacy.LegacyNewMute | cogs/quarantine-system.py:411-421 | the legacy document stores the reason whole and expires exactly when a duration was given |
| QuarantineLegacy.LegacyDocAgrees | cogs/quarantine-system.py:411-421 | the two cogs write the same document exactly when the reason is at most 2000 characters |
| QuarantineLegacy.LegacyMutePermitsMore | cogs/quarantine-system.py:343-395 | whatever the current qmute lets through the legacy one lets through too |
| QuarantineLegacy.LegacyAllowsSelfMute | cogs/quarantine-system.py:343-395 | the legacy qmute may let a moderator mute themselves, which the current one never does |
| QuarantineLegacy.LegacyQMute | cogs/quarantine-system.py:334-473 | a mute happens exactly when the legacy checks pass and the role is added; a refusal changes nothing; a mute draws the next case, stores the legacy document when the insert works, and notes the DM unless silent |
| QuarantineLegacy.LegacyUnmutePermitsMore | cogs/quarantine-system.py:475-500 | whatever the current qunmute lets through the legacy one lets through too |
| QuarantineLegacy.LegacyAllowsSelfUnmute | cogs/quarantine-system.py:475-500 | a moderator who is not an administrator may unmute themselves only under the legacy cog |
| QuarantineLegacy.LegacyQUnmute | cogs/quarantine-system.py:475-538 | an unmute happens exactly when configuration, permission, role and an active mute are there; a failed hierarchy check only warns; the member's active mutes close when the update works |
| QuarantineLegacy.LegacyTickDoc | cogs/quarantine-system.py:662-679 | a due document's legacy turn keeps its identity and closes it exactly when the update works, whatever the role removal did |
| QuarantineLegacy.LegacyTickDocAgrees | cogs/quarantine-system.py:662-679 | the legacy turn is the current one except that an HTTP error on removal does not keep the mute |
| QuarantineLegacy.LegacyTickTurn | cogs/quarantine-system.py:662-692 | one turn of the legacy loop gives LegacyTickDoc and logs as LegacyTickLogs says |
| QuarantineLegacy.LegacyTickedAt | cogs/quarantine-system.py:660-692 | each document is changed by its own turn only, and only when it is due |
| QuarantineLegacy.LegacyTickLogMembers | cogs/quarantine-system.py:679-690 | a document is logged exactly when it was due and its turn logs it |
| QuarantineLegacy.LegacyTickAll | cogs/quarantine-system.py:660-692 | the loop over the query's documents leaves LegacyTicked and logs LegacyTickLog |
| QuarantineLegacy.LegacyTickedOk | cogs/quarantine-system.py:655-695 | a legacy tick keeps the mute invariant |
| QuarantineLegacy.LegacyTickIgnoresRemovalFailure | cogs/quarantine-system.py:674-679 | once the update goes through a due mute is closed even if removing the role failed, where the current cog keeps it |
| QuarantineLegacy.LegacyTickLogsOnce | cogs/quarantine-system.py:679-690 | a logged document was closed by the tick, so a later tick never logs it again |
| QuarantineLegacy.LegacyAutoUnmuteTick | cogs/quarantine-system.py:655-695 | one run of the legacy loop leaves LegacyTicked and logs LegacyTickLog |
| ReqRole.Ids | cogs/reqrole.py:47-54 | the roles returned are exactly those of the server's documents under the lower-cased name |
| ReqRole.IdsAppend | cogs/reqrole.py:47-54 | the lookup over two document runs is the lookups of each, in order |
| ReqRole.Drop | cogs/reqrole.py:225-228 | deleting a name keeps exactly the documents of other names or servers |
| ReqRole.DropIds | cogs/reqrole.py:225-232 | after deleting a name it maps to nothing, every other name keeps its roles, and the count deleted is the name's document count |
| ReqRole.DropLower | cogs/reqrole.py:225-228 | deleting documents keeps every stored name lower case |
| ReqRole.AppendLower | cogs/reqrole.py:477-484 | two runs of lower-case names joined are lower case |
| ReqRole.PutLower | cogs/reqrole.py:186-199 | replacing or inserting a document with a lower-cased name keeps every name lower case |
| ReqRole.Docs | cogs/reqrole.py:477-484 | one document per given role, in order, with no description |
| ReqRole.DocsIds | cogs/reqrole.py:477-486 | the inserted documents map the name to exactly the given roles and no other name to anything |
| ReqRole.RemoveAt | cogs/reqrole.py:215-219 | the documents with the one deleted and the others in order |
| ReqRole.IdsRemoveAt | cogs/reqrole.py:215-219 | deleting one document takes its role out of its own name's list at that place and changes no other name's list |
| ReqRole.IdsReplace | cogs/reqrole.py:186-199 | replacing a document with one of the same server, name and role leaves every name's roles as they were |
| ReqRole.RoleAbsent | cogs/reqrole.py:215-219 | a role no earlier document maps the name to is not among its roles so far |
| ReqRole.NamesSnoc | cogs/reqrole.py:66-69 | each document adds its name to the server's names |
| ReqRole.Entries | cogs/reqrole.py:66-73 | a name's entries are empty exactly when no document of the server has that name |
| ReqRole.EntriesSnoc | cogs/reqrole.py:66-73 | one more document appends its entry to its own name's list only |
| ReqRole.GroupStep | cogs/reqrole.py:66-73 | a grouping of the documents by name, extended by one document, is the grouping of the longer run |
| ReqRole.FirstSpace | cogs/reqrole.py:503 | the first word ends at the first whitespace character |
| ReqRole.CommandNameOf | cogs/reqrole.py:503 | the command is the lower-cased first word after the dot, whatever follows |
| ReqRole.Live | cogs/reqrole.py:535-538 | the roles kept are exactly the mapped roles that still exist |
| ReqRole.ExistingRoles | cogs/reqrole.py:533-538 | the loop keeps the roles that still exist, in mapping order |
| ReqRole.Toggle | cogs/reqrole.py:545-556 | when the member holds any of the roles all of them go, otherwise all are added; other roles are untouched |
| ReqRole.ToggleTwice | cogs/reqrole.py:545-556 | toggling twice restores the member's roles exactly when they held none or all of them |
| ReqRole.RoleManager.constructor | cogs/reqrole.py:15-22 | no required roles and no mappings |
| ReqRole.RoleManager.SetupReqrole | cogs/reqrole.py:167-171 | the server's required role is inserted or replaced; mappings unchanged |
| ReqRole.RoleManager.SetCustomRole | cogs/reqrole.py:186-199 | the document for the server, lower-cased name and role is replaced or inserted; afterwards the name maps to the role and every other name keeps its roles |
| ReqRole.RoleManager.RemoveCustomRole | cogs/reqrole.py:214-232 | with a role one matching document is deleted and 1 counted, or nothing when none matches; without one every document of the name goes and the count is how many it had |
| ReqRole.RoleManager.DeleteMany | cogs/reqrole.py:225-228 | every document of the name deleted, with the count |
| ReqRole.RoleManager.DeleteOne | cogs/reqrole.py:215-219 | the first document of the name with the role deleted and 1 counted, or nothing and 0 |
| ReqRole.RoleManager.SetupMultiRole | cogs/reqrole.py:466-486 | an empty role list is refused with no change; otherwise the name maps to exactly the given roles and no other name changes |
| ReqRole.RoleManager.GetAllCustomRoles | cogs/reqrole.py:61-74 | the keys are exactly the server's names and each holds its entries in document order |
| ReqRole.RoleManager.OnMessage | cogs/reqrole.py:493-556 | the command fires exactly for a '.'-prefixed non-command message in a server with mapped roles and one mention; without admin or the required role it is denied and nothing changes; with no live role nothing changes; a role edit Discord refuses (a role above the bot, no Manage Roles) raises out of the listener at lines 549 and 554, leaving the member's roles as they were with no reply; otherwise the live roles are toggled on the mentioned member |
| Snipe.PartsOf | cogs/snipe.py:300-305 | days are shown exactly from one day, hours exactly from 3600 seconds into the day, minutes exactly from 60; each part is below its unit's bound |
| Snipe.DivMod60 | cogs/snipe.py:304-305 | the minute and second split of a time of day |
| Snipe.PartsAddUp | cogs/snipe.py:300-305 | the shown parts add up to the elapsed time; a negative delta shows its remainder within the day |
| Snipe.PartLetter | cogs/snipe.py:302-305 | a unit letter occurs in a part exactly when the part is shown |
| Snipe.StripUnchanged | cogs/snipe.py:306 | `strip()` leaves text without outer spaces alone |
| Snipe.DigitsNoLetter | cogs/snipe.py:302-305 | a number's digits contain no unit letter |
| Snipe.RawTextFacts | cogs/snipe.py:301-305 | the text starts with a digit, ends with the seconds and "s", and holds d, h, m exactly for the parts shown |
| Snipe.ReadableTimeFacts | cogs/snipe.py:306 | stripping keeps exactly the unit letters of the parts shown and the closing seconds |
| Snipe.ReadableTime | cogs/snipe.py:301-306 | the "deleted at" field shows each unit exactly when its threshold is met and always closes with the seconds |
| Snipe.SafeAttachments | cogs/snipe.py:249-252 | only links starting with the Discord CDN prefix are kept, in order |
| Snipe.Stored | cogs/snipe.py:259 | the attachments column is NULL exactly when no link is safe |
| Snipe.ShowAttachments | cogs/snipe.py:331-360 | an empty column shows nothing; a non-empty column without a comma is shown whole as the image, and exactly then; several links are listed |
| Common.SplitOnSingle | cogs/snipe.py:332 | `split(',')` gives one part exactly when there is no comma, and that part is the whole text |
| Snipe.SplitJoin | cogs/snipe.py:259-332 | splitting comma-joined comma-free links gives the links back |
| Snipe.JoinNonEmpty | cogs/snipe.py:259-331 | a join starting with a non-empty link is non-empty, so it is truthy |
| Snipe.AttachmentsRoundTrip | cogs/snipe.py:249-259 | storing then showing: no safe link gives nothing, one becomes the image, more are listed in order (also lines 331-360) |
| Snipe.ContentSection | cogs/snipe.py:327-335 | the content, or "*No content*", followed by the link list only when there are several links |
| Snipe.Latest | cogs/snipe.py:396 | the row deleted last |
| Snipe.Top | cogs/snipe.py:396 | `ORDER BY deleted_at DESC LIMIT k` takes min(k, n) of the rows |
| Snipe.Omit | cogs/snipe.py:396 | leaving one row out shortens the rows by one |
| Snipe.OmitWithin | cogs/snipe.py:396 | leaving a row out adds no row |
| Snipe.OmitKeeps | cogs/snipe.py:396 | leaving a row out keeps every other row |
| Snipe.TopUnfold | cogs/snipe.py:396 | a query that takes anything takes the latest row first, then the latest of the rest |
| Snipe.TopWithin | cogs/snipe.py:396 | a row the query returns is one of its input rows |
| Snipe.TopWithinAll | cogs/snipe.py:396 | the query returns only rows it was given |
| Snipe.TopSorted | cogs/snipe.py:396 | the rows taken come latest first |
| Snipe.TopLatest | cogs/snipe.py:396 | every row left out was deleted no later than every row taken |
| Snipe.TopLatestAt | cogs/snipe.py:396 | one row left out was deleted no later than one row taken |
| Snipe.ConsSplit | cogs/snipe.py:396 | a row left out of the result is neither its head nor in its tail; a row taken is one or the other |
| Snipe.LatestBound | cogs/snipe.py:396 | no row was deleted later than the one picked as latest |
| Snipe.ChannelRows | cogs/snipe.py:396 | exactly the rows of the channel |
| Snipe.Query | cogs/snipe.py:395-399 | at most ten rows, all of the channel, latest first |
| Snipe.Recent | cogs/snipe.py:410-420 | exactly the queried rows at most seven days old |
| Snipe.ShownFacts | cogs/snipe.py:393-420 | what is shown is at most ten rows of the channel, each at most seven days old, and none older than a channel row left out |
| Snipe.DigitsPrefix | cogs/snipe.py:267 | two keys `digits_rest` with equal text have equal digit heads |
| Snipe.DigitsValueEq | cogs/snipe.py:267 | equal digit strings have equal values |
| Snipe.CacheKeyInjective | cogs/snipe.py:267 | different server and author pairs never share a cache key |
| Snipe.FindMember | cogs/snipe.py:276-286 | the lookup goes by a truthy id first, then by user name, then by display name, and finds nobody only when no member matches any |
| Snipe.CachedLookup | cogs/snipe.py:265-295 | a live cache entry answers and nothing changes; otherwise the member lookup answers; afterwards the key is cached with that answer and live, and every other key keeps its entry and expiry |
| Snipe.Mention | cogs/snipe.py:320-324 | the member's mention, else a mention built from a truthy id, else the stored name |
| Snipe.EmbedOf | cogs/snipe.py:297-368 | the embed holds the readable time, that mention, the content section, and an image exactly when the stored column is one non-empty link, that link being the image |
| Snipe.SnipeCog.constructor | cogs/snipe.py:113-129 | the database not ready, no rows and empty caches |
| Snipe.SnipeCog.InitDb | cogs/snipe.py:165-193 | a successful initialisation makes the database ready and changes nothing else |
| Snipe.SnipeCog.OnMessageDelete | cogs/snipe.py:241-263 | bot messages and a database that is not ready are ignored; otherwise one row with the safe links is appended |
| Snipe.SnipeCog.GetMemberCached | cogs/snipe.py:265-295 | a live cache entry answers, a None result included; otherwise the lookup's result is cached for five minutes |
| Snipe.SnipeCog.PeriodicCleanup | cogs/snipe.py:200-221 | one pass deletes rows older than seven days when the database is ready and drops cache entries past their expiry from both dictionaries |
| Snipe.SnipeCog.CreateSnipeEmbed | cogs/snipe.py:297-368 | the embed that function describes, for the member the cached lookup of the message's author answers; the member and both cache dictionaries are exactly what `GetMemberCached` gives |
| Snipe.SnipeCog.RecentRows | cogs/snipe.py:410-420 | the timestamp loop keeps the recent rows in order |
| Snipe.SnipeCog.Snipe | cogs/snipe.py:378-442 | refused while the database is not ready; no rows, or only rows over seven days old, are reported, and then the caches are untouched; otherwise a view opens on the recent rows at the first, whose embed names the member the cached lookup of the first row's author answers, leaving the caches as that lookup does |
| Snipe.SnipeView.constructor | cogs/snipe.py:16-23 | the view opens on the first page with the buttons matching it |
| Snipe.SnipeView.PreviousPage | cogs/snipe.py:54-64 | another user is refused; the page moves back only when not on the first, and the buttons follow |
| Snipe.SnipeView.NextPage | cogs/snipe.py:76-86 | another user is refused; the page moves on only when not on the last, and the buttons follow |
| Steal.ExtractEmojis | cogs/steal.py:109-111 | the tokens kept are exactly the whitespace-separated words starting with `<:` or `<a:` |
| Steal.ExtractedShape | cogs/steal.py:109-111 | each kept token is a whole word opening with '<' |
| Steal.DropLast | cogs/steal.py:97-98 | Python's `[:-1]` drops the last character, and nothing from an empty string |
| Steal.SplitToken | cogs/steal.py:97-98 | a token with two colons splits into its three fields |
| Steal.ParseFields | cogs/steal.py:97-98 | the URL comes from the third field without its last character and the name from the second; as written the name also loses its last character |
| Steal.Parse | cogs/steal.py:97-98 | the corrected parse fails on the same tokens as the code as written and gives the same URL; its name is a whole ':' field whose last character is all the name as written lacks |
| Steal.AnimatedPrefix | cogs/steal.py:97 | the URL ends in .gif exactly for tokens opening with `<a:` |
| Steal.ParseToken | cogs/steal.py:97-98 | a well-formed token yields its own id, its own name and the right extension |
| Steal.NameLosesLastLetter | cogs/steal.py:98 | as written, a stolen emoji is created without the last letter of its name |
| Steal.CandidatesDistinct | cogs/steal.py:137-141 | the candidate names `name`, `name_1`, `name_2`, ... are pairwise distinct |
| Steal.TriedFacts | cogs/steal.py:137-141 | the first c candidates are c names, each a candidate |
| Steal.UsedBound | cogs/steal.py:136-141 | the loop cannot pass more taken candidates than the server has names, so it ends |
| Steal.FreeFrom | cogs/steal.py:139-141 | the search from a taken prefix reaches the first free candidate |
| Steal.FreeIndex | cogs/steal.py:139-141 | the chosen candidate is free and every earlier one is taken |
| Steal.UniqueNameMeaning | cogs/steal.py:134-142 | the name itself when unused, otherwise `name_k` for the smallest k from 1 not in use |
| Steal.UniqueEmojiName | cogs/steal.py:134-142 | the loop returns that first free candidate, which the server does not use |
| Steal.AddEmoji | cogs/steal.py:113-132 | an emoji is created exactly when the URL is at most 256000 long, the fetch answers 200, the bot may manage emojis and creation works; it takes the first free name; a failed fetch reports its status |
| Steal.AddEmojiCall | cogs/steal.py:113-132 | the method gives the result that function describes |
| Steal.Results | cogs/steal.py:96-100 | one result per token, or none once a token fails to parse |
| Steal.CountWhere | cogs/steal.py:99-100 | the counter never exceeds the number of results |
| Steal.CountAll | cogs/steal.py:99-100 | when every result counts, the counter is the number of results |
| Steal.CountNone | cogs/steal.py:99-100 | when no result counts, the counter stays 0 |
| Steal.StealLoop | cogs/steal.py:94-101 | the loop over the tokens, for a given parse and a given test of what the counter counts: the count over the results and the total, or nothing once a token fails to parse |
| Steal.StealEmojiAsWritten | cogs/steal.py:86-107 | as written, the report is the number of truthy results, sent messages included, out of the total |
| Steal.ResultsStayNone | cogs/steal.py:96-98 | once a token fails to parse, every longer run fails too |
| Steal.FailuresCounted | cogs/steal.py:99-120 | as written, every result is truthy, so the report claims all emojis were created even when every fetch failed |
| Steal.StealEmoji | cogs/steal.py:86-107 | the corrected report counts only the emojis actually created, out of the total |
| Steal.NoFetchNoneCreated | cogs/steal.py:118-120 | with the corrected count, a run in which no fetch succeeds reports none created |
| Steal.ResultsNoFetch | cogs/steal.py:118-120 | when no fetch succeeds, no result is a creation |
| Sticky.DropOld | cogs/sticky.py:134-136 | the loop drops a prefix of the deque and stops at an entry at most five seconds old |
| Sticky.DropOldKeepsRecent | cogs/sticky.py:134-136 | on a deque in time order exactly the entries at most five seconds old stay |
| Sticky.PopOld | cogs/sticky.py:134-136 | the popping loop yields exactly the pruned deque |
| Sticky.DropOldTwice | cogs/sticky.py:134-136 | pruning and pruning again later is pruning once later |
| Sticky.Pruned | cogs/sticky.py:86-91 | every deque is pruned and exactly the ones left empty are deleted |
| Sticky.PruneAll | cogs/sticky.py:86-91 | the cleanup loop yields exactly the pruned table |
| Sticky.CleanupHarmless | cogs/sticky.py:86-138 | cleaning up never changes a later rate-limit decision |
| Sticky.Forced | cogs/sticky.py:276-279 | each channel becomes a forced repost request, in order |
| Sticky.FedTruncates | cogs/sticky.py:27 | offering requests to the 1000-slot queue keeps the first ones that fit (also lines 253-255) |
| Sticky.Eligible | cogs/sticky.py:248-279 | only stored stickies whose channel exists and whose document is read are offered |
| Sticky.FirstMatch | cogs/sticky.py:114-119 | the id found is the first of the ten newest messages the bot wrote with the sticky's text, and none only when no such message is there |
| Sticky.Recovered | cogs/sticky.py:104-123 | recovery only fills in ids for stored stickies' channels and keeps the others |
| Sticky.OnceDeque | cogs/sticky.py:129-138 | a forced pass leaves every deque; a non-forced one sets the channel's deque to the pruned one, with the send time added exactly when below the limit a stored sticky was sent (also lines 140-142 and 223-224); a 429 result means the send met a 429 |
| Sticky.InternalDeque | cogs/sticky.py:187-238 | over the whole repost only the first, non-forced pass can count: the forced retry after a 429 never adds to the deque |
| Sticky.Internal | cogs/sticky.py:187-238 | a repost makes one or two passes, and a second pass happens only when a non-forced pass found a stored sticky and its send met a 429 |
| Sticky.OnceShown | cogs/sticky.py:192-238 | a pass that reposts had a stored sticky and a sent message, shows that message and stamps its document with the time; any other pass keeps the documents and shows no new channel |
| Sticky.InternalShown | cogs/sticky.py:187-238 | a successful repost shows the message of the pass that sent it and stamps the document with that pass's time, keeping its text; a failed one keeps the documents and shows no new channel |
| Sticky.StickyCog.constructor | cogs/sticky.py:14-39 | no rate limits, shown stickies, queued requests or channels in progress |
| Sticky.StickyCog.IsRateLimited | cogs/sticky.py:129-138 | the channel's deque is pruned and the channel is limited exactly when two or more reposts remain, nothing else changes |
| Sticky.StickyCog.SendSticky | cogs/sticky.py:192-238 | no sticky means no repost; the old shown id is cleared whether or not its deletion works; a sent message becomes the shown sticky and, unless forced, is counted against the limit; a 429 is reported as such |
| Sticky.StickyCog.RepostOnce | cogs/sticky.py:187-238 | a non-forced repost is refused exactly when the pruned deque holds two or more; otherwise it behaves as the sending part; the result and new state are exactly one repost pass on the old state |
| Sticky.StickyCog.RepostInternal | cogs/sticky.py:187-238 | a non-forced repost meeting a 429 makes exactly one more, forced, attempt; a forced one gives up; success means a sticky is shown; the returned flag, pass count and new deques, shown ids and documents are exactly those of the two-pass repost on the old state |
| Sticky.StickyCog.RepostSticky | cogs/sticky.py:240-257 | a request is queued exactly when the channel is in a guild, has a sticky and the queue has room, and nothing else changes |
| Sticky.StickyCog.OnMessage | cogs/sticky.py:260-269 | bots and direct messages are ignored and queue nothing; any other message asks for a non-forced repost, queued exactly when the stored sticky is read and the queue has room, refused as full when it has none, and otherwise reported as nothing to repost; the queue changes only by that request, and the channels in progress and the stickies stay |
| Sticky.StickyCog.ProcessNext | cogs/sticky.py:50-79 | the front request is taken; it is skipped when its channel is already in progress or gone, changing nothing else; otherwise the step reports the repost's success and the deques, shown ids and documents become those of the two-pass repost of that channel, and the in-progress set is restored |
| Sticky.StickyCog.SetSticky | cogs/sticky.py:155-173 | the text is upserted with the current time exactly when the write works, and nothing else changes |
| Sticky.StickyCog.Stick | cogs/sticky.py:297-323 | text over 2000 characters or blank is refused; otherwise it is stored when the write works and a forced repost is appended to the queue exactly when there is room; refusals change neither documents nor queue; deques, shown ids and in-progress set never change |
| Sticky.StickyCog.StickEdit | cogs/sticky.py:356-387 | as the stick command but only where a sticky exists, replying that none is there otherwise; a forced repost is appended exactly when there is room; refusals change neither documents nor queue |
| Sticky.StickyCog.StickStop | cogs/sticky.py:325-354 | with no sticky nothing changes; otherwise the shown id is cleared first and the document is deleted when the delete works, the reply saying which |
| Sticky.StickyCog.Cleanup | cogs/sticky.py:80-101 | the deques are pruned, the empty ones deleted, and a shown id is forgotten exactly when its channel is gone |
| Sticky.StickyCog.PeriodicRepost | cogs/sticky.py:271-286 | every eligible sticky is offered a forced repost, in order, into the bounded queue |
| Sticky.StickyCog.StickReset | cogs/sticky.py:389-414 | every sticky of the guild is deleted and counted, other guilds' stay, the guild's shown ids are forgotten; a database error changes nothing |
| Sticky.StickyCog.Recover | cogs/sticky.py:103-123 | the shown ids become those recovery finds, and nothing else changes |
| Thread.TakeToken | cogs/thread.py:101-123 | the bucket refills half a token per second up to five, the check passes exactly when a whole token is there and takes it, and tokens never go negative |
| Thread.RunBounded | cogs/thread.py:38-43 | over checks at non-decreasing times, the checks passed plus the tokens left never exceed the starting tokens plus half a token per second elapsed (also lines 101-123) |
| Thread.AtMostFivePlusRefill | cogs/thread.py:38-43 | a channel starting fresh lets at most five threads through plus one per two seconds since (also lines 101-123) |
| Thread.SanitizeName | cogs/thread.py:176-188 | the name is non-empty and at most 50 characters: the first 50 of the printable, stripped content when any is left, and the first 50 of "Thread by <author>" exactly when none is |
| Thread.SanitizedPrintable | cogs/thread.py:179-182 | a name taken from the message holds only printable characters of the message |
| Thread.Creation | cogs/thread.py:243-337 | as intended, the creation loop makes at most three attempts and sleeps once between every two of them |
| Thread.MadeIff | cogs/thread.py:247-337 | a thread is made exactly when some attempt of the three creates it and every earlier attempt hit a rate limit or an HTTP error |
| Thread.CreateWithRetry | cogs/thread.py:243-337 | the loop returns exactly the result, attempt count and sleeps of the intended creation |
| Thread.CreationAsWritten | cogs/thread.py:3-14 | as written the first rate limit or HTTP error raises out of the handler, because asyncio is never imported (also lines 276, 307) |
| Thread.RetryNeverHappens | cogs/thread.py:3-14 | an HTTP error then a success makes a thread as intended, while the written handler dies on the first attempt (also lines 302-307) |
| Thread.Incremented | cogs/thread.py:165-169 | one key's count goes up by one from 0 when absent and every other count stays |
| Thread.ThreadCog.constructor | cogs/thread.py:19-46 | no buckets, configurations, cooldowns or statistics |
| Thread.ThreadCog.CheckChannelRateLimit | cogs/thread.py:101-123 | the channel's bucket, fresh when new, is updated by one check and no other state changes |
| Thread.ThreadCog.IsOnCooldown | cogs/thread.py:125-141 | a member is on cooldown exactly when their last thread is younger than the cooldown, and then the time left is positive |
| Thread.ThreadCog.UpdateCooldown | cogs/thread.py:143-153 | the member's last use becomes now unless the write fails, and nothing else changes |
| Thread.Counted | cogs/thread.py:155-174 | the day's total goes up by one, every other day keeps its document, and no counter of that day passes its total |
| Thread.ThreadCog.RecordStats | cogs/thread.py:155-174 | the day's total and the channel's and member's counts go up by one unless the write fails |
| Thread.ThreadCog.OnMessage | cogs/thread.py:190-340 | bots and direct messages are ignored; messages without attachments or outside configured channels are not watched and leave the buckets alone; a watched message takes a token from its channel's bucket, which is stored; it is throttled exactly when no token was left, and on cooldown, with the seconds left, exactly when it got a token and the member's last thread is younger than the cooldown; otherwise creation is attempted with the intended retry loop `CreateWithRetry`, not the written one that raises NameError at the first rate limit or HTTP error (corrected, see "## Findings"); only a made thread starts the cooldown and counts in the statistics |
| Thread.ThreadCog.ConfigureChannel | cogs/thread.py:358-451 | a cooldown outside 0 to 3600 is refused; a configured channel is switched off and an unconfigured one is switched on once the three permissions are checked in order; a failed write changes nothing |
| VcRoles.HumanIds | cogs/vc-roles.py:533-543 | exactly the ids of the non-bot members |
| VcRoles.Retried | cogs/vc-roles.py:187-209 | the attempts stay within the budget; success means the last attempt worked; stopping early means the last attempt worked or was refused with 403 or 404 |
| VcRoles.RetrySucceedsIff | cogs/vc-roles.py:187-209 | the call succeeds exactly when some attempt within the budget works and every earlier attempt failed in a retried way |
| VcRoles.RoleWithRetry | cogs/vc-roles.py:187-232 | the retry loop returns exactly the result of the retry function |
| VcRoles.PlanSync | cogs/vc-roles.py:529-561 | the role goes to exactly the resolved non-bot members in voice without it and leaves exactly the resolved non-bot holders outside voice, skipping members being processed; no member is in both |
| VcRoles.SyncConverges | cogs/vc-roles.py:529-561 | once every planned change lands the resolved holders not being processed are exactly the non-bot members in voice, and members being processed keep their role as it was |
| VcRoles.InitialTargets | cogs/vc-roles.py:171-178 | the role is given to exactly the non-bot members in voice who lack it |
| VcRoles.Merged | cogs/vc-roles.py:338-346 | an omitted role or log channel keeps the current one, and no role at all is refused |
| VcRoles.MergeIdempotent | cogs/vc-roles.py:338-378 | re-running the same command changes nothing and gives the role to nobody again |
| VcRoles.Invalid | cogs/vc-roles.py:584-592 | exactly the configurations whose guild or role is gone |
| VcRoles.VcRolesCog.constructor | cogs/vc-roles.py:27-32 | the cog starts unloaded with no configurations cached |
| VcRoles.VcRolesCog.Load | cogs/vc-roles.py:53-97 | the cache is the stored table, or empty on a read error |
| VcRoles.VcRolesCog.DeleteConfig | cogs/vc-roles.py:121-131 | the row and the cache entry go together, and an error keeps both |
| VcRoles.VcRolesCog.RemoveBranch | cogs/vc-roles.py:264-290 | with nothing configured nothing changes; otherwise the configuration is deleted, or kept when the delete fails, and the reply says which |
| VcRoles.VcRolesCog.ViewBranch | cogs/vc-roles.py:293-335 | nothing configured or a live role only shows; a configuration whose role is gone is deleted |
| VcRoles.VcRolesCog.UpdateBranch | cogs/vc-roles.py:338-388 | the merged configuration is saved and cached exactly when it has a role that exists and the bot can manage and any log channel is a text channel it can write to; every refusal or failed save changes nothing |
| VcRoles.VcRolesCog.VcRole | cogs/vc-roles.py:244-388 | non-administrators are refused and nothing changes; a save needs a role or log channel given without remove; a removal leaves the guild unconfigured |
| VcRoles.VcRolesCog.OnVoiceStateUpdate | cogs/vc-roles.py:430-479 | a loaded guild's configured role is added exactly when a non-bot member not being processed is in voice without it and removed exactly when one outside voice holds it, each with the retry loop; a configuration whose role is gone is dropped |
| VcRoles.VcRolesCog.OnRoleDelete | cogs/vc-roles.py:486-492 | the configuration goes only when its own role is deleted |
| VcRoles.VcRolesCog.ManualSync | cogs/vc-roles.py:394-427 | the sync runs exactly for an administrator with a configured, existing, manageable role, with the sync plan; a configuration whose role is gone is dropped from the stored table and the cache when the delete works; every other reply leaves both as they were |
| VcRoles.VcRolesCog.CheckRoleValidity | cogs/vc-roles.py:575-611 | each configuration whose guild or role is gone is deleted in one batch, an error keeps them all; afterwards every remaining configuration is valid |
| Verification.GuildKeyInjective | cogs/Verification.py:40-44 | servers are keyed by their id's decimal text, and two ids share a key exactly when they are equal |
| Verification.Lookup | cogs/Verification.py:38-40 | a server never set up reads as an empty configuration |
| Verification.OtherGuildUnaffected | cogs/Verification.py:42-47 | writing one server's configuration leaves every other server's as it was |
| Verification.SetupAsUpdates | cogs/Verification.py:83-89 | writing the seven keys one at a time amounts to merging them in |
| Verification.UpdateTwice | cogs/Verification.py:42-47 | writing a key twice keeps the second value |
| Verification.Resolve | cogs/Verification.py:190-213 | `get_role(id) if id else None` finds something exactly for a stored non-zero number naming an existing role or channel |
| Verification.OwnerField | cogs/Verification.py:422 | the text after the first `TICKET_OWNER:` marker, up to the next one |
| Verification.OwnerId | cogs/Verification.py:418-425 | no topic or no marker gives no owner |
| Verification.SingleWord | cogs/Verification.py:422 | a word without spaces splits to itself |
| Verification.DigitsLackMarker | cogs/Verification.py:422 | a number's digits hold no marker |
| Verification.OwnerIdOfTopic | cogs/Verification.py:233 | the owner of a ticket the bot opened reads back from its topic (also lines 418-425) |
| Verification.PrefixIdCollides | cogs/Verification.py:182-233 | as written, a member whose id is a prefix of another's is taken to own that member's ticket |
| Verification.OwnsTicketExactly | cogs/Verification.py:181-233 | the corrected test blocks a member on their own ticket and on nobody else's |
| Verification.FindOpenTicket | cogs/Verification.py:181-188 | the scan over the text channels returns the first the member owns |
| Verification.FirstWhereUnique | cogs/Verification.py:181-188 | the scan stops at the first match |
| Verification.TicketWelcome | cogs/Verification.py:238-239 | the stored template, or "Welcome {user}!", with `{user}` replaced by the mention; a stored number fails |
| Verification.DeclineText | cogs/Verification.py:335-337 | the stored decline template filled in, or the fallback text; a stored number fails |
| Verification.NoServerPlaceholder | cogs/Verification.py:336-337 | brace-free text holds no `{server}` |
| Verification.DeclineFilled | cogs/Verification.py:335-337 | a template with `{server}` then `{reason}` gets the server's name and the reason, whatever the reason says |
| Verification.ServerNameTakesReason | cogs/Verification.py:336-337 | a server name containing `{reason}` has the reason put in its place, since it is filled in first |
| Verification.SetupStaff | cogs/Verification.py:83-89 | after setup, exactly administrators and holders of the chosen staff role are staff (also lines 404-416) |
| Verification.TicketGate | cogs/Verification.py:440-473 | a button proceeds exactly for staff in a `verification-` channel whose topic names a non-zero owner still in the server (also lines 570-602) |
| Verification.Approve | cogs/Verification.py:433-487 | approval needs that gate and an existing verified role, and gives that role to the ticket's owner |
| Verification.Decline | cogs/Verification.py:563-606 | declining needs the same gate and sends the owner the filled-in decline text (also lines 329-337) |
| Verification.Verify | cogs/Verification.py:162-239 | unconfigured, an open ticket, already verified and no category are refused in that order; otherwise a `verification-<name>` channel is created with the member's owner topic, in the category, with the welcome text and the staff ping; the open-ticket refusal uses the exact owner test, not the substring test of line 182 (corrected, see "## Findings") |
| Verification.SecondTicketRefused | cogs/Verification.py:181-233 | once a member's ticket exists, pressing the button again points at it |
| Verification.OthersTicketIgnored | cogs/Verification.py:181-233 | under the corrected exact owner test, another member's new ticket never blocks this member; of the substring test of line 182 this is false (member 1 is blocked by a ticket of member 13; corrected, see "## Findings") |
| Verification.FirstWhereSnocMiss | cogs/Verification.py:181-188 | a non-matching channel added at the end does not change the scan |
| Verification.CreatedTicketApprovable | cogs/Verification.py:229-235 | the channel the button creates passes every ticket check, and approving it grants the verified role to the member who opened it (also lines 433-487) |
| Verification.VerificationSystem.constructor | cogs/Verification.py:16-31 | the configuration is whatever the file held |
| Verification.VerificationSystem.SetServerConfig | cogs/Verification.py:42-47 | one key of one server is set, creating the server's object if needed |
| Verification.VerificationSystem.SetupVerify | cogs/Verification.py:67-89 | the seven keys are written over whatever the server had |
| Verification.VerificationSystem.VerifyButton | cogs/Verification.py:162-239 | the button decides as that function does, with the open-ticket scan as a loop, using the exact owner test (corrected, see "## Findings") |

## Left out

- Discord REST and gateway effects (messages, embeds, reactions, role and permission edits, threads, DMs, member fetches, voice) are modelled only through their outcome. No embed or reply text is modelled beyond the strings the cogs compute.
- Persistence drivers (aiosqlite, pymongo, motor, JSON files), their indexes, server-side TTL expiry and connection pools are replaced by maps and sequences. Wherever the order of database rows matters, it is a parameter.
- Concurrency is not modelled. asyncio tasks, `tasks.loop` scheduling, locks, semaphores, `gather` and cancellation timing become one atomic step per handler, and an endless background loop becomes one pass of its body.
- Randomness (`random.sample`, `choice`, `uniform`, colour and greeting pools) is a parameter constrained to what the draw may return.
- Apart from the thread token bucket, the wall clock is an integer number of seconds. Sub-second time, float backoff, jitter and sleeps are left out; a sleep the code would make is returned as a value or dropped.
- String methods (`lower`, `strip`, `isdigit`, `isprintable`, `int()`) are modelled for ASCII text. Unicode case folding, Unicode digits and the underscores `int()` accepts are not modelled.
- Logging, banners and error-report messages are left out.
- cogs/vc-manager.py, cogs/always-vc.py, cogs/dragmee.py, cogs/status_changer.py, cogs/translate.py, cogs/stats.py, cogs/status.py, cogs/info.py and cogs/av.py are not part of this model. They are voice, presence, translation, statistics and display glue. The two config.py files appear only as the constants they define.
- giveaways: statistics, embeds, winner DMs and the persistent views are left out. A running fill task is an entry of a set of message ids. The fill loop runs as a sequence of passes, and cancellation is seen only between passes.
- GiveawayAdmin.FakeOf: the counter after `_fake_` is any digit string, so leading zeros are allowed, whereas the source always writes plain decimal.
- quarantine: the setup-mute, check, reset, reapply, setmodrole, mutelist, clearmutes, jailhistory and case commands, the on_message handler, embeds, the lock and the Mongo indexes are left out. A failed channel is listed by its id rather than by name.
- Quarantine.ParseDuration: a count large enough that its `timedelta` would pass 999999999 days (a second, minute or hour count of that order) makes the source raise OverflowError; the model gives its length in seconds, as integers are unbounded here.
- Quarantine.ParseDurationRoundTrip: the round trip is stated for every length, including those whose `timedelta` would overflow in the source.
- Quarantine.LegacyParseDuration: the legacy parser is said to accept every matching text, although a count whose `timedelta` would overflow raises OverflowError in the source.
- Quarantine.ParseMuteArgsRoundTrip: the duration comes back in seconds for every length, including those whose `timedelta` would overflow in the source.
- Quarantine.MuteDb.QMute: a duration whose `timedelta` overflows, or whose expiry `utc_now() + dur` would fall after the year 9999, raises OverflowError in the source before anyone is muted; the model has no calendar bound and mutes with that expiry.
- QuarantineLegacy.LegacyAcceptsLongMute: the day counts it covers include those whose `timedelta` would overflow in the source.
- QuarantineLegacy.LongDayWord: the day counts it covers include those whose `timedelta` would overflow in the source.
- QuarantineLegacy.LegacyQMute: as for `QMute`, a duration whose `timedelta` or expiry overflows raises OverflowError in the source before anyone is muted; the model mutes with that expiry.
- legacy quarantine: the startup work and the unguarded concurrent update of the legacy auto-unmute are left out.
- appeals: the modal and its length limits, the views, the staff notifications and the status and list commands are left out. Races between two reviews of one appeal are excluded by the atomic step.
- matchmaking: the UI views (match panel, thread controls, report modal), notifications, the database pool, the cleanup loops, the queue panel, the mm admin command, thread creation in `_attempt_match`, `calculate_priority`/`update_priority` and thread overwrites are left out. The candidate fetch's ORDER BY and LIMIT are taken as given, and roles are passed in as a function.
- drops: embeds, views, stats and leaderboard output, `reset_cooldown` and the pytz time formatting are left out. Ids are integers.
- bulkping: the progress dashboard and its ETA, message deletion, the sleeps, the dashboard DM and the timing of cancelling the asyncio task are left out. Cancellation is a position in the run, and a failure during the retry pass drops the ids not yet retried.
- BulkPing.BulkPingCog.Execute: the check that first sees the cancel flag is the `cancelAt` position of its outcomes, because the flag is set by a button press interleaved with the run; the model does not derive that position from `cancelFlags`, and the `Task.cancel()` call of cancel_operation is not modelled.
- confess: the modal `on_submit` (cogs/confess.py:227-335), the reply view and the log embed are left out. The `guild_id` key that update_guild_settings writes into the settings is not modelled, and a removed confession is one whose message is edited, as its document stays. The colour check accepts '#' followed by hexadecimal digits worth at most 0xFFFFFF; the other forms `Color.from_str` accepts are not modelled.
- vc-roles: the batching of `periodic_role_sync`, the batches and sleeps of `_apply_to_current_users`, the jitter and the cleanup after removal (cogs/vc-roles.py:276-284) are left out. Member and role ids are positive.
- media: the Mongo connect retry, the DM and log after a deletion, the view embed, autocomplete and the monotonic clock are left out. `urlparse` is modelled for the http and https URLs the content scan finds: the scheme is the text before the first ':', and the scheme's own validity checks and the WHATWG control-character stripping are not modelled.
- sticky: embeds and delays, sticklist, the error handlers, the 0.5 s and 2 s sleeps and the queue's 30 s timeout are left out.
- thread: thread_status, indexes and TTL, and the confirmation messages are left out. The token bucket is the one place where time is a `real`, as its refill is fractional.
- afk: embeds, colours, the random choices, AFKChoiceView, the DM fallback and the page content are left out.
- autoresponder: `_migrate_from_json` (cogs/autoresponder.py:81-113), the deprecated prefix commands (cogs/autoresponder.py:446-594, which use undefined attributes), the help and placeholder listing and the embeds are left out. The date and time placeholders take the formatted text as parameters.
- reqrole: `delete_mapped_role`, `reset_server`, `clear_all_custom_roles`, `log_role_change`, the list and description displays, the `has_reqrole` command check and `setup_database` are left out.
- steal: the command dispatch (cogs/steal.py:19-36), stickers (cogs/steal.py:38-84), the error handlers (cogs/steal.py:148-174) and session closing are left out.
- purge: the slash command is left out. Messages are abstracted to author, bot flag and age, and ages are whole seconds. The delays the fetch would sleep are returned, not waited. The "Max retry attempts reached" reply is reachable only with no attempts.
- snipe: `connect_with_backoff`, the thumbnail, footer and colour, the rate-limit replies, failures of `fromisoformat`, migrations, the cleanup loop and its sleep, microseconds and `on_timeout` are left out. Attachment URLs are stored comma-joined, and the round trip assumes no URL contains a comma.
- greet: the greet_list display, the `setup_database` retries, error text, the lock and the 60 s deletion of a greeting are left out. A format spec or conversion such as `{user!r}`, and index or attribute access in a field name such as `{user[0]}` or `{member_count.real}`, are treated as an error (the run stops with FormatFailed) although Python resolves them and the greeting is sent, and the default greetings are not proved to format. `test_greet` greets every enabled channel, whatever channel it is given, as the code does.
- Greet.Field: gives no value for `{user[0]}`, `{member_count.real}` or any other indexed or dotted field name, because the model does not carry the member, guild and integer objects whose items and attributes Python would look up.
- Greet.Format: fails on a format spec, a conversion, or an indexed or dotted field name, where Python's `str.format` gives a text, for the same reason.
- verification: the transcript (cogs/Verification.py:644-769), embeds, logs and DMs, the JSON load and save, permission overwrites and the log and DM status of `on_submit` are left out.
- ban: the DM text and its sleep, the `cache_ready` wait, the watcher's endless loop and `setup_database` are left out. Roles are integer ranks.
- main: logging, the banner, signals, `close`, `_periodic_cleanup`, `send_error_report` and `on_ready` are left out. The 0.2 s global cooldown is a parameter, the slash-sync outcomes are a finite sequence, and the path separator is "/".

## Findings

| source | as written | input that shows it | evidently intended | confidence | as-written member | corrected member |
|---|---|---|---|---|---|---|
| cogs/thread.py:3-14 | `asyncio.sleep` is called at lines 276 and 307, but asyncio is never imported, so the first rate limit or HTTP error raises NameError out of the handler | an HTTP error on the first attempt and a success on the second | sleep and retry, so the second attempt creates the thread | not executed | Thread.CreationAsWritten, Thread.RetryNeverHappens | Thread.CreateWithRetry, Thread.MadeIff, Thread.ThreadCog.OnMessage |
| cogs/steal.py:98 | the emoji name is the second ':' field without its last character | `<:cat:123>` creates an emoji named "ca" | keep the whole name "cat" | not executed | Steal.NameLosesLastLetter | Steal.ParseToken |
| cogs/steal.py:99-100 | the error paths return the sent error message, which is truthy, so `added` counts failures (line 120) | every image fetch fails, yet the report says all emojis were added | count only created emojis | not executed | Steal.StealEmojiAsWritten, Steal.FailuresCounted | Steal.StealEmoji, Steal.NoFetchNoneCreated |
| cogs/Verification.py:182 | the open-ticket check is a substring test of the member id on the channel topic | member id 1 and a ticket whose topic holds owner 13 | match only the exact owner id | not executed | Verification.PrefixIdCollides | Verification.OwnsTicketExactly, Verification.FindOpenTicket, Verification.Verify, Verification.OthersTicketIgnored, Verification.VerificationSystem.VerifyButton |
| cogs/ban.py:158-160 | the reason is the text after `find(mention)`, and `find` returns -1 when the text does not hold the mention in that form | text "456 spam" with the mention `<@7>` gives reason "spam" | keep the whole text when the mention is not in it | not executed | Ban.MissingMentionLosesText | Ban.MentionFirstReason, Ban.ChooseTarget, Ban.Decide, Ban.BanCog.OnMessage |
| cogs/giveaways/giveaway_core.py:100-126 | the entries list joins the real rows and the plan's fake ids, and a fake row is also a row | one fake row stored and in the plan | list each entry once | not executed | GiveawayCore.EntriesAsWrittenListsFakeTwice | GiveawayCore.EntriesShape, GiveawayCore.EntriesRealOnce, GiveawayCore.EntriesFakeNotReal, GiveawayCore.EntriesFakesDistinct |
| cogs/giveaways/giveaway_core.py:732-760 | reroll reads the previous winners before ending an active giveaway, so the winners drawn by that end are not excluded | rerolling an active giveaway with one real entry | exclude the winners of the end it just ran | not executed | GiveawayCore.RerollAsWrittenRepeatsWinner | GiveawayCore.RerollDraw, GiveawayCore.RerollOutcomeSound, GiveawayCore.GiveawayStore.Reroll |
| cogs/giveaways/giveaway_admin.py:76-80 | resume passes total_reactions instead of the remaining count | a plan for 2 reactions with 1 left and one synthetic entry stored | resume with the remaining count, so the total is never passed | not executed | GiveawayAdmin.ResumeAsWrittenOvershoots | GiveawayAdmin.ResumeWithinTotal, GiveawayAdmin.LaunchesResumable |
| cogs/quarantine/appeal_system.py:43 | the unique index is on appeal_id alone while each guild numbers its appeals from 1 | the first appeal of a second guild | a unique index on (guild_id, appeal_id), with the review lookup keyed on the guild as well | not executed | Appeals.GlobalIndexBlocksSecondGuild | Appeals.FreshNumberAccepted, Appeals.FindAppeal, Appeals.AppealDb.ProcessReview |
| cogs/quarantine/appeal_system.py:407 | the unmute reads reviewed_by_id from the appeal fetched before the review was written | any approved appeal | store the reviewer as the unmuter | not executed | Appeals.StaleUnmuterIsNone | Appeals.AppealDb.ProcessReview |
| cogs/bulkping.py:681-682 | the once-per-operation DM guard is keyed by the bare operation id, while each guild numbers its operations from 1 | operation 1 of guild A, then operation 1 of guild B | key the guard by (guild, operation id) | not executed | BulkPing.DmDueAsWritten, BulkPing.SharedOpIdSkipsDm | BulkPing.DmDue, BulkPing.DmOncePerOperation, BulkPing.BulkPingCog.Execute |
