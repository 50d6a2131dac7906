# Squelch: a verified model of its hard logic

This project models, in Dafny, the parts of the Squelch server whose
correctness does not show in one function body, and proves what they promise.
Time is a number passed to each operation, tables are maps from primary key to
row, channels are sequences; everything else follows the Go code branch by
branch.

**Configuration restore** (`RadioTables`, `RadioDatabase`, `BackupFile`,
`Restore*`, `MonitorTheorems`). A backup carries the source database's primary
keys. A `View` is what tables say once primary keys are erased: label sets,
systems by number, talkgroups and units by (system number, own number) with
group and tag by label. `Restored` says what a restore makes of a view;
`Restore.RestoreTables` proves the imperative restore does exactly that on a
`Database` object with unique keys, AUTOINCREMENT counters and foreign keys
checked on every statement. Folder monitors are modelled because the schema
gives their references to systems and talkgroups no ON DELETE rule
(`backend/migrations/011_create_dirmonitors.sql:13-14`) while foreign keys are
switched on (`backend/internal/db/open.go:25`): a Replace fails, and is rolled
back, exactly when a folder monitor the file does not rewrite points at a row
the file lacks (`BackupFile.Blocked`). Restoring a file twice changes nothing
more in the other radio tables; when it does in the folder monitors, which the
schema lets share a directory, is stated exactly.

**The review of a restore** (`Preview`, `PreviewMeaning`, `ReviewMeaning`,
`PreviewTheorems`, `PreviewDisagreements`, `RestoreAgain`). The review compares text keys and
fingerprints. It is shown to count natural keys, and then compared with what
the restore does. Where the two part, the exact condition is proved
(`PreviewDisagreements`): labels are reviewed ignoring case and outer space but
restored exactly, so Added and Removed can be short; without the systems table
the review counts talkgroups and units as removed that Replace leaves alone;
with the systems table and without theirs it counts none while Replace deletes
those of every system the file lacks; of live folder monitors sharing a
directory only the last is matched; a new directory the file lists twice is one
Added and two monitors; and Changed misses what the fingerprint does not show.

**Filename masks** (`Mask`, `MaskParse`, `MaskMeaning`, `MaskRoundTrip`). The regular
expression a mask becomes is modelled by the language it accepts and by the
order in which a leftmost-first match prefers readings; the backtracking match
is proved to return the preferred reading of every name; what that comes to,
token by token and character by character, is in `MaskMeaning`. Printing a mask and
parsing the name back returns the values if and only if no separator is an
upper-case letter, which the token pattern would swallow.

**ID3v2 tags and file names** (`Id3Tag`, `Id3Reader`, `Id3RoundTrip`,
`Id3Texts`, `FilenameParts`). The frame walk over arbitrary bytes, both size encodings
(ID3v2.4.0 structure, section 6.2, and the big-endian sizes of 2.3) with the
reader's unmasked shifts and ors, and round trips for tags, UTF-16 text,
comments, DSD+ fields and bracketed labels.

**Sessions and sign-in** (`TokenTracker`, `TokenRuns`, `TokenTheorems`,
`TokenAccepts`, `RateLimiter`, `RateRuns`, `RateTheorems`, `RateReach`). Both objects are
proved against functions of their state, and the promises are proved over all
runs of those functions: tokens revoked stay rejected, tokens nobody
revoked are accepted, the cap holds, and reservations are never lost. The limiter's promise, at most maxFailures
failures per lockout length, does not hold of every run: the instant a lockout
ends still counts as its last for failures and no longer for admission, so the
first failure there locks again with other attempts pending. The project proves
the bound that does hold, 2 maxFailures - 1, and a run that meets it; that from
a given state every continuation stays within maxFailures exactly when no such
attempt is held over; and that all runs do exactly when maxFailures is 1.

**Transcriber** (`Transcriber*`). Submitters, workers, the goroutine that
closes a pool's results, the pumps and hot reload as interleaved steps; where
a `select` has two ready cases, both steps are enabled. A delivered result is a
success exactly when the last request for its job was.

**CSV imports** (`TalkgroupImport*`, `ImportMeaning`, `UnitImport`, `LabelImport`). The review
compares ignoring case and the import exactly; which rows are shown and not
written, and written and not shown, is stated exactly and counted, for
overwriting and for filling.

**Grants** (`Grants`). A restore rewrites the systems of a stored grant list
and not its talkgroups; when access by system, and by talkgroup, is what it was
is stated exactly.

**Address blocks** (`IpAddress`, `IpGuard`, `IpMatcher`, `AddressMeaning`), **request limits**
(`IpBuckets`), **delivery status** (`DeliveryTracker`), **log and usage rings**
(`Ring`, `LogQuery`, `LegacyUsage`). The log search joins attribute values in an
order that changes from call to call; when the list and the counts beside it
agree all the same is stated exactly.

`Common`, `NaturalKeys`, `Text` and `TextMeaning` hold shared definitions. `dafny verify
dfyconfig.toml` checks the whole project.

## Model

| member | source | states |
|---|---|---|
| `RestoreMerge.RestoreGroups` | backend/internal/admin/imports.go:139-157 | Every group of the file ends up as one row with exactly its label, new or already there; the remap takes each of the file's primary keys to the row with the label the file gives it, and created is the number of rows gained |
| `RestoreMerge.RestoreTags` | backend/internal/admin/imports.go:158-176 | The same for tags |
| `RestoreMerge.RestoreSystems` | backend/internal/admin/imports.go:178-210 | Systems are matched by system number and rewritten; the system part of the view gains exactly the file's entries, and the remap takes each file key to the live system with the same number |
| `RestoreMerge.RestoreTalkgroups` | backend/internal/admin/imports.go:212-254 | Talkgroups are written through the three remaps: the view gains exactly the file's talkgroups with group and tag by label, rows of systems the file does not list are skipped, references the file cannot resolve become NULL |
| `RestoreMerge.RestoreUnits` | backend/internal/admin/imports.go:256-278 | The same for units under (system number, unit number) |
| `RestoreMonitors.RestoreMonitors` | backend/internal/admin/imports.go:345-393 | Each row of the file is written once, at the last listed live monitor of its directory or at a row of its own, with the file's directory and fields and with its references carried through the remaps; the last row written at a place is what it holds, and a monitor not written is as it was |
| `RestoreConfig.MergeAll` | backend/internal/admin/imports.go:137-393 | All six loops together: the view becomes the merged view, every kept row is one the file means, created is the number of rows gained over all tables, and every folder monitor of the file is written: at the place of its last row stands a monitor with that row's directory, fields and order, with a system exactly when the row names one the file lists, then the live system of that number, and with a talkgroup exactly when the row names one of the file's, then the live talkgroup of that key |
| `RestoreConfig.WrittenMeans` | backend/internal/admin/imports.go:357-393 | What a written folder monitor says, in the words of the file: directory, fields, order, system number and talkgroup key |
| `RestorePrune.PruneTalkgroups` | backend/internal/admin/imports.go:542-557 | Deletes exactly the talkgroups of kept systems that were not kept, and fails exactly when a folder monitor still refers to one of them |
| `RestorePrune.PruneSystems` | backend/internal/admin/imports.go:683-714 | Deletes exactly the systems not kept with their talkgroups and units, fails exactly when a folder monitor refers to any of these, and counts every cascaded row once |
| `RestoreReplace.RemoveAbsent` | backend/internal/admin/imports.go:538-717 | The deletions of a Replace in the six radio tables, in order: it stops exactly when some stage meets a folder monitor it cannot delete around, and otherwise leaves the pruned tables and counts the rows lost |
| `BackupFile.BlockedExample` | backend/migrations/011_create_dirmonitors.sql:13-14 | One system, one folder monitor that points at it, and a Replace file with no systems and no monitors: the tables are sound and the restore is blocked |
| `RestoreReplace.BlockedStops` | backend/internal/admin/imports.go:638-714 | Some unmatched folder monitor pointing at a row the file lacks does stop the deletions |
| `RestoreReplace.StopsBlocked` | backend/internal/admin/imports.go:638-714 | Nothing else stops them |
| `Restore.RestoreTables` | backend/internal/admin/imports.go:83-531 | The restore of the six radio tables: it fails, and rolls everything back, exactly when a Replace is blocked by a folder monitor; otherwise the view without primary keys is the merged or pruned view, foreign keys hold, created and removed are the rows gained and lost, each row that was there stays or goes as the file says, and every folder monitor of the file is there with its directory, fields and order, with the live system of the file's number and the live talkgroup of the file's key exactly where the file names one it lists |
| `RestoreTheorems.ReplaceRebuilds` | backend/internal/admin/imports.go:77-79 | A Replace of a file with groups, tags, systems, talkgroups and units leaves exactly what the file says, whatever was there and whatever primary keys either side used |
| `RestoreTheorems.MergeKeeps` | backend/internal/admin/imports.go:76-77 | Row by row over what a Merge leaves: every primary key stays with its natural key, holds the file's fields if the file lists that key, and its own if not |
| `RestoreTheorems.RestoreIdempotent` | backend/internal/admin/imports.go:76-83 | Restoring a file into a view it was just restored into changes nothing, in either mode |
| `RestoreTheorems.RestoreKeepsFile` | backend/internal/admin/imports.go:76-83 | After a restore in either mode everything the file says is in the view |
| `RestoreRuns.ExportMeans` | backend/internal/admin/exports.go:21-46 | A backup without its primary keys says exactly what the database says, in whatever order its tables were listed |
| `RestoreRuns.BackupInto` | backend/internal/admin/exports.go:50-60 | Backing up one database and restoring with Replace into any other carries the radio tables over, unless a folder monitor of the target stops it, which then changes nothing |
| `RestoreAgain.SecondRun` | backend/internal/admin/imports.go:137-278 | A second identical restore neither creates nor removes a group, tag, system, talkgroup or unit, row by row, and leaves their view unchanged |
| `RestoreAgain.NotBlockedAgain` | backend/internal/admin/imports.go:638-714 | After a Replace went through, no folder monitor can stop the same Replace again |
| `RestoreAgain.RestoreTwice` | backend/internal/admin/imports.go:83-531 | Two restores of one file in a row: the second succeeds whenever the first did, leaves the radio tables as the first did, and does to the folder monitors what the rows below say |
| `RestoreAgain.SecondRunMonitors` | backend/internal/admin/imports.go:345-393 | The folder monitors through two restores of one file: the references are carried to the same rows both times, none is created again, and what is removed or rewritten is stated exactly |
| `MonitorTheorems.MonitorsCreated` | backend/internal/admin/imports.go:373-393 | A restore creates one folder monitor for every row of the file whose directory has none |
| `MonitorTheorems.CreatesNone` | backend/internal/admin/imports.go:346-393 | A second restore of the same file creates no folder monitor |
| `MonitorTheorems.RemovesShadowed` | backend/internal/admin/imports.go:638-651 | A second Merge removes none, and a second Replace exactly those of a listed directory that are not the last listed for it |
| `MonitorTheorems.ReplaceShadows` | backend/internal/admin/imports.go:638-651 | What that second Replace removes is nothing exactly when the file lists no directory twice that had no live monitor |
| `MonitorTheorems.ReplaceAgain` | backend/internal/admin/imports.go:345-393 | A second Replace leaves the folder monitors as the first did exactly when the file lists no directory twice that had no live monitor |
| `MonitorTheorems.SecondPlaces` | backend/internal/admin/imports.go:346-393 | The second run writes every row where the first did exactly when no such directory is listed twice and, for a Merge, every listed live monitor still comes last in its directory with the order the file writes |
| `MonitorTheorems.SecondSame` | backend/internal/admin/imports.go:345-393 | Written in the same places, the folder monitors are left as they were |
| `MonitorTheorems.MergeAgain` | backend/internal/admin/imports.go:345-393 | A second Merge leaves the folder monitors as the first did exactly when the last monitor of every listed directory says what the file's last row for it does |
| `MonitorTheorems.TwiceListedExample` | backend/internal/admin/imports.go:373-393 | A Replace that lists a new directory twice creates two monitors, and the same Replace again removes one |
| `MonitorTheorems.OrderExample` | backend/internal/admin/imports.go:350-353 | Two live monitors of a directory at orders 5 and 10 and a file at order 0: the first Merge rewrites the second monitor, the second Merge the first |
| `RestoreAgain.ImportConfig` | backend/internal/admin/imports.go:83-123 | The operation as called, for the radio tables: the review describes the tables before, updated is the review's differ count, created and removed are the rows gained and lost; the review's Added is what came for systems, talkgroups and units, and its Removed what went for systems; for every other count of the review, Changed included, the exact relation to what happened |
| `RadioDatabase.Database.DeleteSystem` | backend/migrations/007_create_talkgroups.sql:4 | Deleting a system takes its talkgroups and units with it, and is refused exactly when a folder monitor refers to any of them |
| `RadioDatabase.Database.DeleteTalkgroup` | backend/migrations/011_create_dirmonitors.sql:13-14 | Deleting a talkgroup is refused exactly when a folder monitor refers to it |
| `RadioDatabase.Database.UpsertTalkgroup` | backend/internal/admin/imports.go:237-247 | Writes one talkgroup under its unique (system, number), keeping the primary key of a row already there and every foreign key valid |
| `RadioTables.KeysInjective` | backend/migrations/007_create_talkgroups.sql:13 | Under the schema's unique constraints, natural keys identify rows |
| `Preview.DiffRows` | backend/internal/admin/backup.go:133-164 | The diff of two listings: added, changed and removed as counted by the key sets and fingerprints |
| `Preview.DiffListed` | backend/internal/admin/backup.go:133-164 | What the diff reports of a live table does not depend on the order its rows were listed in, and counts each row once |
| `PreviewMeaning.DiffMeaning` | backend/internal/admin/backup.go:108-164 | Compared on text keys and fingerprints, the diff counts exactly the natural keys only in the file, only live, and in both with another fingerprint |
| `PreviewMeaning.KeyTextInjective` | backend/internal/admin/backup.go:284-290 | The text number:number identifies the pair, so two rows share a key text only if they share a natural key |
| `PreviewMeaning.PreviewBackup` | backend/internal/admin/backup.go:479-530 | The review of a file against the live tables, in natural keys: per table how many rows the file and the database have, and what is added, changed and removed |
| `ReviewMeaning.LabelsReviewed` | backend/internal/admin/backup.go:205-211 | For groups and tags: the live labels no row of the file matches, ignoring case and outer space, are the removed ones, none is ever changed, and nothing is added exactly when every label of the file matches a live one |
| `ReviewMeaning.LabelKeyIs` | backend/internal/admin/backup.go:205-211 | A label is compared in lower case without the space on either side |
| `PreviewTheorems.ReviewAfterReplace` | backend/internal/admin/backup.go:469-530 | Where the view is the file's, the review of that file reports nothing added, changed or removed in the five radio tables |
| `PreviewTheorems.AddedAgrees` | backend/internal/admin/imports.go:178-278 | In either mode the rows a restore creates in systems, talkgroups and units are the review's Added |
| `PreviewTheorems.RemovedAgrees` | backend/internal/admin/imports.go:541-571 | For each of systems, talkgroups and units that the file carries, with the systems carried, the rows a Replace deletes, cascades included, are the review's Removed, each counted once |
| `PreviewDisagreements.CascadesNotReviewed` | backend/internal/admin/imports.go:683-714 | A file with systems and without talkgroups (or units): the review reports none removed, Replace deletes exactly those of the systems the file lacks, and the two agree exactly when every live one's system is in the file |
| `PreviewDisagreements.CascadeExample` | backend/internal/admin/backup.go:133-137 | One system with one talkgroup and a file with an empty systems table and no talkgroups: Removed is 0 and the talkgroup goes |
| `PreviewTheorems.RemovedDisagrees` | backend/internal/admin/imports.go:542-559 | Without the systems table the review counts every live talkgroup, and every live unit, as removed while Replace removes none; they agree only when there are none |
| `PreviewDisagreements.RemovedExact` | backend/internal/admin/imports.go:541-571 | For every Replace, whatever tables it carries: the review's Removed for talkgroups, and for units, is what goes exactly when neither of these two cases bites |
| `PreviewDisagreements.MonitorsRemovedAgree` | backend/internal/admin/imports.go:638-651 | For folder monitors Replace removes the review's Removed and the live monitors whose directory the file lists but that are not the last listed for it; the two agree exactly when there are none of these |
| `PreviewDisagreements.ShadowedExample` | backend/internal/admin/imports.go:350-353 | Of two live monitors of one directory the first is removed without the review saying so |
| `PreviewDisagreements.MonitorsAddedAgree` | backend/internal/admin/imports.go:373-393 | The review's Added for folder monitors never exceeds the rows created, and equals them exactly when the file lists no directory twice that has no live monitor |
| `PreviewDisagreements.AddedTwiceExample` | backend/internal/admin/imports.go:373-393 | A file that lists a new directory twice: one Added, two monitors |
| `PreviewDisagreements.ChangedExact` | backend/internal/admin/imports.go:98-123 | For systems, talkgroups and units, where the file carries the table (and for a Replace the systems), the rows whose fields a restore alters are the review's Changed and those altered in ways its fingerprint does not show; the two agree exactly when there are none of these |
| `PreviewDisagreements.MonitorsChanged` | backend/internal/admin/imports.go:345-393 | For folder monitors the rows altered and those counted but never written, being shadowed, are as many as the review's Changed and the silently altered ones |
| `PreviewTheorems.LabelsRemovedAgree` | backend/internal/admin/backup.go:205-211 | The review's Removed for groups and tags is what Replace removes exactly when no live label differs from a file label by case or outer space alone; otherwise it is short by the number of those |
| `PreviewTheorems.SpellingExample` | backend/internal/admin/backup.go:205-211 | A live group FIRE against a file's Fire: removed by the restore, not by the review |
| `PreviewDisagreements.LabelsAddedAgree` | backend/internal/admin/backup.go:205-211 | The review's Added for groups and tags never exceeds the labels a restore creates, and equals them exactly when no label of the file that is not live differs from another of these or from a live one by case or outer space alone |
| `PreviewDisagreements.LabelsAdded` | backend/internal/admin/imports.go:139-176 | The same for both tables of a whole restore, in either mode |
| `PreviewDisagreements.AddedExample` | backend/internal/admin/imports.go:139-157 | A live group FIRE against a file's Fire: nothing added says the review, and one group is created |
| `PreviewTheorems.UnchangedSystems` | backend/internal/admin/backup.go:229-239 | Changed is 0 for systems exactly when every system in both has equal fields, NULL read as empty, where no field holds the separator |
| `PreviewTheorems.UnchangedTalkgroups` | backend/internal/admin/backup.go:267-293 | The same for talkgroups, with group and tag labels up to case |
| `PreviewTheorems.UnchangedUnits` | backend/internal/admin/backup.go:295-313 | The same for units |
| `ReviewMeaning.UnchangedMonitors` | backend/internal/admin/backup.go:331-343 | The same for folder monitors, whose system and talkgroup the review does not look at |
| `PreviewTheorems.TalkgroupPrintMeaning` | backend/internal/admin/backup.go:284-290 | Two talkgroup fingerprints are equal exactly when the fields are, up to NULL and the case of labels, where no field holds the separator |
| `Mask.MatchBest` | backend/internal/dirmonitor/mask.go:89-114 | A match succeeds exactly when the name is the literals interleaved with one value of each token's class, and returns the leftmost-first choice: earlier tokens first, lazy ones shortest, digit ones longest |
| `Mask.PreferredUnique` | backend/internal/dirmonitor/mask.go:92-94 | There is only one such choice |
| `MaskParse.BuildPattern` | backend/internal/dirmonitor/mask.go:133-158 | The loop over token positions builds the pattern of the whole mask: literals, known tokens as captures in order, unknown tokens as literals |
| `MaskParse.ParseMask` | backend/internal/dirmonitor/mask.go:127-176 | A result exists exactly when the mask has a token and the name can be read by its pattern; it maps each token to its value in the leftmost-first reading, the last one winning |
| `MaskMeaning.ParseOne` | backend/internal/dirmonitor/mask.go:95-114 | A mask of one token, any of the eighteen, matches a name exactly when that is not empty and every character is one the token takes: no white space for dates and times, no line end for names, digits for numbers, digits and points for MHz; it gives the whole name |
| `MaskMeaning.ParseInterleaved` | backend/internal/dirmonitor/mask.go:127-176 | Tokens with single characters between them read a name of texts they take, none holding such a character, as exactly these texts |
| `MaskMeaning.ParseFive` | backend/internal/dirmonitor/mask.go:123-126 | The mask of the example reads every date, time, group, label and number joined by underscores as these five |
| `MaskMeaning.ParseLazy` | backend/internal/dirmonitor/mask.go:92-114 | After a date, time or name token the first separator ends the text, however many follow |
| `MaskMeaning.ParseAdjacent` | backend/internal/dirmonitor/mask.go:92-114 | Of two tokens side by side on digits the first takes all but one if it is numeric and one if it is not |
| `MaskRoundTrip.AlternatingPrints` | backend/internal/dirmonitor/mask.go:36-58 | Printing a mask of known tokens between single characters puts each token's value in its place |
| `MaskRoundTrip.LongerFirst` | backend/internal/dirmonitor/mask.go:37-56 | The printer never tries a token before a longer one it is a prefix of |
| `MaskRoundTrip.TokenPrinted` | backend/internal/dirmonitor/mask.go:36-58 | At a token not followed by an upper-case letter the printer replaces exactly that token |
| `MaskRoundTrip.PrintedValues` | backend/internal/dirmonitor/mask.go:36-58 | Each of the eighteen tokens prints its own value, #TG the talkgroup id |
| `MaskRoundTrip.OneReading` | backend/internal/dirmonitor/mask.go:127-176 | Without upper-case separators the printed name has exactly one reading, the values |
| `MaskRoundTrip.PrintAndParse` | backend/internal/dirmonitor/mask.go:127-176 | Print then parse returns the values when no separator is an upper-case letter, and for distinct tokens only then |
| `MaskRoundTrip.UpperExample` | backend/internal/dirmonitor/mask.go:86-87 | #TG, X, #DATE: #TGX is read as one unknown token and the talkgroup is lost |
| `Id3Tag.SizeRoundTrip` | backend/internal/dirmonitor/parsers.go:419-426 | A size written in seven-bit or eight-bit digits is read back by shifting and or-ing the bytes |
| `Id3Texts.SizeMeans` | backend/internal/dirmonitor/parsers.go:419-426 | Four bytes mean a number in base 128 in version 4 and in the tag header, base 256 otherwise |
| `Id3Tag.OrDisjoint` | backend/internal/dirmonitor/parsers.go:420-425 | Or-ing a shifted number with one below the shift adds them |
| `Id3Reader.ReadID3Tags` | backend/internal/dirmonitor/parsers.go:383-452 | For every file, however malformed, the reader stays in bounds and ends; an unreadable file is an error, a file without a usable header has no tags, and otherwise the result is the last artist, title and comment among the frames |
| `Id3Reader.WalkFrames` | backend/internal/dirmonitor/parsers.go:408-446 | The loop over frames keeps, per id, the text of the last frame seen |
| `Id3Reader.DecodeUTF16` | backend/internal/dirmonitor/parsers.go:489-517 | The decoding loop yields the text up to the first zero unit in the byte order the mark gives, big-endian without one |
| `Id3RoundTrip.WalkReads` | backend/internal/dirmonitor/parsers.go:408-446 | On written frames followed by zero padding the walk visits exactly those frames in order |
| `Id3RoundTrip.TagRoundTrip` | backend/internal/dirmonitor/parsers.go:383-452 | A file that starts with a written 2.3 or 2.4 tag gives the last artist, title and comment of its frames, whatever follows |
| `Id3Texts.ArtistTitleComment` | backend/internal/dirmonitor/parsers.go:383-452 | A file that starts with a tag of TPE1, TIT2 and COMM frames in any encoding but UTF-16 gives exactly the artist, title and comment written, whatever padding and audio follow |
| `Id3Texts.NoneOfThree` | backend/internal/dirmonitor/parsers.go:434-446 | A file that starts with a tag without these three frames has no tags |
| `Id3Texts.PlainTextRead` | backend/internal/dirmonitor/parsers.go:455-472 | In every encoding but UTF-16 a text that does not end in a zero byte is read back whole, whatever zeros follow |
| `Id3Texts.OtherFiles` | backend/internal/dirmonitor/parsers.go:383-406 | Which files have no tags and which are errors: by the first three bytes, a declared size of zero or above 1 MiB, and a tag cut short |
| `Id3RoundTrip.Utf16RoundTrip` | backend/internal/dirmonitor/parsers.go:455-517 | A UTF-16 text frame in either byte order reads as its text up to the first zero unit, half surrogates as U+FFFD |
| `Id3Texts.AsciiUtf16Read` | backend/internal/dirmonitor/parsers.go:489-517 | ASCII text in UTF-16 is read back as it was, with either mark, and big-endian without one |
| `Id3Texts.Utf8Decodes` | backend/internal/dirmonitor/parsers.go:489-517 | Each unit is written in the one to three bytes that decode to it, a surrogate half as U+FFFD |
| `Id3RoundTrip.CommentRoundTrip` | backend/internal/dirmonitor/parsers.go:474-486 | A comment frame reads as its text, and with an empty text as its description |
| `Id3Texts.CommentRead` | backend/internal/dirmonitor/parsers.go:474-486 | A comment text after a language and a described zero is read back whole |
| `FilenameParts.SplitDSDPlusMeta` | backend/internal/dirmonitor/parsers.go:719-739 | Splitting at underscores outside brackets; joining the fields gives the name back with each byte turned into a character |
| `FilenameParts.JoinBackExact` | backend/internal/dirmonitor/parsers.go:719-739 | The fields join back to the name exactly when every byte is ASCII |
| `FilenameParts.FieldsRoundTrip` | backend/internal/dirmonitor/parsers.go:716-739 | ASCII fields whose underscores are all in closed brackets come back when joined and split |
| `FilenameParts.BracketsClosed` | backend/internal/dirmonitor/parsers.go:716-739 | A bracketed text with any underscores in it stays in its field, and an open bracket takes all that follows |
| `FilenameParts.CharacterMeans` | backend/internal/dirmonitor/parsers.go:735-735 | A byte above 127 becomes the two bytes that decode to the character of its number |
| `FilenameParts.ExtractBracketContents` | backend/internal/dirmonitor/parsers.go:793-811 | The loop collects the non-empty texts of the bracket pairs, left to right |
| `FilenameParts.BracketsRoundTrip` | backend/internal/dirmonitor/parsers.go:791-811 | Texts put in brackets are read back in order, empty ones left out, whatever stands between them |
| `TokenTracker.TokenTracker.Track` | backend/internal/auth/auth.go:311-325 | Tracking cleans up, moves the oldest live token to the deny list when the user has MaxTokens, and appends the new one |
| `TokenTracker.TokenTracker.CleanupLocked` | backend/internal/auth/auth.go:411-439 | The nested loops drop exactly the expired entries, the denials of their ids, and the denials whose time has passed |
| `TokenTracker.TokenTracker.RejectsToken` | backend/internal/auth/auth.go:352-362 | A token is rejected when issued before the process, when its device session is denied, or when it is denied; lookups forget denials past their time |
| `TokenAccepts.EarlierRejected` | backend/internal/auth/auth.go:352-362 | In every run from a start at some second, a token issued before that second, or without an issue time, is rejected |
| `TokenAccepts.TrackedAccepted` | backend/internal/auth/auth.go:311-439 | A tracked token issued since the start is accepted until it expires, as long as neither it, nor its user, nor its device session is signed out and the user tracks at most 19 more |
| `TokenAccepts.LookupSilent` | backend/internal/auth/auth.go:329-389 | Looking a token up, which forgets denials past their time, changes no later answer about any token |
| `TokenAccepts.LookupForgets` | backend/internal/auth/auth.go:329-389 | What a lookup forgets: the denial of an accepted token and of its device session, and nothing else |
| `TokenTracker.TokenTracker.RevokeAllForUser` | backend/internal/auth/auth.go:399-407 | Every listed token of the user is denied until it expires and the list is dropped |
| `TokenRuns.RunKeeps` | backend/internal/auth/auth.go:311-439 | In every run with a clock that does not go back, fresh ids and lifetimes up to the access expiry, each tracked unexpired token is in its user's list or denied at least until it expires, and lists stay in tracking order and within the cap |
| `TokenRuns.DenialStays` | backend/internal/auth/auth.go:311-439 | A denial that reaches a token's expiry is never shortened by a later track, revocation, lookup or cleanup |
| `TokenTheorems.RevokeAllRejects` | backend/internal/auth/auth.go:399-407 | After all of a user's tokens are revoked, every token tracked for that user before is rejected until it expires, whatever happens next |
| `TokenTheorems.RevokeRejects` | backend/internal/auth/auth.go:392-396 | The same after one token is revoked by id |
| `TokenTheorems.RevokeFamilyRejects` | backend/internal/auth/auth.go:364-375 | After a device session is signed out every token of it is rejected for the access lifetime, tracked or not |
| `TokenTheorems.CapHolds` | backend/internal/auth/auth.go:278-279 | In every run each user has at most MaxTokens tokens that have not expired and are not denied |
| `TokenTheorems.EvictsOldest` | backend/internal/auth/auth.go:317-323 | The token denied to make room was tracked no later than any of the user's tokens that still work, and the others stay as they were |
| `TokenTheorems.EvictsEarly` | backend/internal/auth/auth.go:311-325 | It works itself exactly when it was not denied already; and fewer than MaxTokens worked exactly when some listed token is denied, so a working token goes early exactly when the head is not denied and another listed one is |
| `RateLimiter.RateLimiter.TryBegin` | backend/internal/auth/ratelimit.go:126-148 | Admits exactly when the address is not locked and the round's failures plus attempts in flight leave room, and reserves the attempt |
| `RateLimiter.RateLimiter.RecordFailure` | backend/internal/auth/ratelimit.go:74-105 | Counts a failure unless locked, in a new round once a served lockout has passed, and locks when the round is full |
| `RateTheorems.PardonForgets` | backend/internal/auth/ratelimit.go:161-173 | A successful sign-in, and an admin's clearing of an address with a count or a lockout, leave no failures and no lockout, and keep the attempts in flight |
| `RateTheorems.PardonedRoom` | backend/internal/auth/ratelimit.go:161-173 | After it, in every run, the address is not locked before it has failed maxFailures times again |
| `RateLimiter.RateLimiter.Cleanup` | backend/internal/auth/ratelimit.go:229-258 | The sweep keeps every entry with attempts in flight, every running lockout and every recent partial count |
| `RateTheorems.SweepForgets` | backend/internal/auth/ratelimit.go:229-258 | Which entries the sweep drops: none in flight, and either a full count past its lockout or a partial one older than a lockout; every other stays as it is |
| `RateRuns.StepBalanced` | backend/internal/auth/ratelimit.go:74-258 | No operation breaks the balance: inFlight is the number of open attempts, and the round's failures plus the attempts that can still fail do not exceed the maximum |
| `RateTheorems.RunBalanced` | backend/internal/auth/ratelimit.go:121-157 | The balance holds in every run with fixed limits, whatever the clock does |
| `RateRuns.StepQuiet` | backend/internal/auth/ratelimit.go:92-103 | While an address is locked none of its attempts can still fail, unless a failure fell on the very instant a lockout ended |
| `RateTheorems.LockoutBound` | backend/internal/auth/ratelimit.go:30-31 | In every run, within any stretch as long as a lockout without a sign-in or an admin's clearing, an address fails at most maxFailures times and once more for each attempt still pending when the stretch starts under a lockout that ends in it; so at most 2 maxFailures - 1 times, and at most maxFailures when that is 1 |
| `RateReach.WindowExact` | backend/internal/auth/ratelimit.go:74-105 | From any reachable state, every continuation over a lockout's length stays within maxFailures exactly when nothing is held over so |
| `RateReach.BoundReached` | backend/internal/auth/ratelimit.go:74-105 | Whatever is held over, some continuation fails that often and maxFailures times more |
| `RateReach.EveryRunBoundedExact` | backend/internal/auth/ratelimit.go:86-103 | Every run of a fresh limiter keeps every address within maxFailures failures per lockout length exactly when maxFailures is 1 (or the lockout is no longer than one tick of the clock) |
| `RateReach.Exceeds` | backend/internal/auth/ratelimit.go:86-103 | For any larger maxFailures and any longer lockout, a run from the fresh limiter in which an address fails 2 maxFailures - 1 times within a lockout's length, so the general bound is met |
| `RateTheorems.OffTheDotBound` | backend/internal/auth/ratelimit.go:92-103 | The bound of maxFailures after any past in which no failure of that address fell on the instant its lockout ended |
| `RateReach.DotHoldsOver` | backend/internal/auth/ratelimit.go:86-148 | On the instant a lockout ends a whole round of attempts is let in, the first failure locks again at once, and the other maxFailures - 1 are still pending |
| `Transcriber.Transcribe` | backend/internal/audio/transcriber.go:196-234 | The retry loop does what a worker's steps do: it stops at the first success or lasting error, after the last retry, or on a back-off cut short by cancellation, makes at most four requests, and its result is that of the last one |
| `TranscriberRuns.StepConserves` | backend/internal/audio/transcriber.go:108-149 | No step of a submitter, worker, closer, pump or reload loses or doubles a job |
| `TranscriberSafety.StepSafe` | backend/internal/audio/transcriber_manager.go:161-218 | Every step keeps: a closed results channel has no running worker, only the current or pinged pool is not cancelled, and jobs only wait where a pump reads |
| `TranscriberSafety.NeverSendsOnClosed` | backend/internal/audio/transcriber.go:125-133 | A worker about to send never finds its results channel closed |
| `TranscriberTheorems.EveryRun` | backend/internal/audio/transcriber_manager.go:78-218 | In every interleaving with any number of reloads each job puts at most one result on the manager's channel, none unless accepted, and costs at most maxRetries+1 requests |
| `TranscriberRequests.FourRequests` | backend/internal/audio/transcriber.go:196-234 | In every interleaving at most four requests go out for a job, counted as they are made, and none for one that was not accepted |
| `TranscriberRequests.ShortNeverQueued` | backend/internal/audio/transcriber_manager.go:78-99 | Under a minimum length no shorter job of known length is ever queued, unless it is forced; SubmitExactly says which job goes where |
| `TranscriberRequests.QueuesBounded` | backend/internal/audio/transcriber.go:97-99 | In every run a pool of n workers holds at most 4 n jobs and 4 n results, and a reload starts two workers |
| `TranscriberRequests.DeliveredRun` | backend/internal/audio/transcriber.go:108-149 | A run from hand-in over a failed first request to the result taken from the manager, every step of which can happen |
| `TranscriberRequests.ReloadedRun` | backend/internal/audio/transcriber_manager.go:161-218 | A reload during a back-off: the job is given up, the worker leaves, the results are closed and the pump ends |
| `TranscriberAnswers.OkExactly` | backend/internal/audio/transcriber.go:196-242 | In every interleaving each result on the manager's channel, or taken from it, is a success exactly when the last request for its job was answered with one |
| `TranscriberAnswers.InterruptedFails` | backend/internal/audio/transcriber.go:206-214 | A job whose back-off was cut short is never delivered as a success, whatever happens next |
| `TranscriberAnswers.GivenUpSilent` | backend/internal/audio/transcriber_manager.go:210-218 | A job refused, or whose result was given up, is not delivered at all |
| `TranscriberTheorems.DeliveredOrStopped` | backend/internal/audio/transcriber.go:237-242 | An accepted job that is in no pool any more was delivered exactly once or given up by a pool that has been cancelled |
| `TranscriberTheorems.OneRunningPool` | backend/internal/audio/transcriber_manager.go:161-206 | At most one pool is not cancelled at any time |
| `IpAddress.OverlapsShared` | backend/internal/ipblock/guard.go:40-50 | Two ranges overlap exactly when some address is in both |
| `AddressMeaning.ContainsMeans` | backend/internal/ipblock/ipblock.go:158-176 | A range of n bits holds exactly the addresses of its family, without a zone, in its aligned block of 2^(32-n), or 2^(128-n), numbers |
| `AddressMeaning.LoopbackMeans` | backend/internal/ipblock/ipblock.go:107-117 | Loopback is 127.0.0.0 to 127.255.255.255, plain or IPv4-mapped, and ::1 |
| `IpGuard.MappedMembers` | backend/internal/config/config.go:351-356 | Translating an IPv4-mapped range keeps its members |
| `IpGuard.CheckExact` | backend/internal/ipblock/guard.go:24-53 | A range is allowed exactly when it is readable, canonical, narrow enough, and holds no loopback and no trusted address |
| `AddressMeaning.CheckMeans` | backend/internal/ipblock/guard.go:24-53 | In plain numbers, what the guard says of every input: not a range, host bits set, wider than /16 (IPv6: /48), holding a loopback address, holding a trusted one, or allowed |
| `AddressMeaning.ParseMeans` | backend/internal/config/config.go:333-357 | The range each input means: a single address without its zone, an IPv4-mapped one as IPv4, a mapped range only with all 96 bits of the mapping |
| `IpMatcher.Matcher.Match` | backend/internal/ipblock/ipblock.go:158-176 | Finds the first block in force that contains the client's address, and none for a trusted client |
| `IpMatcher.Matcher.Reload` | backend/internal/ipblock/ipblock.go:64-87 | The readable rows become the list in force; on a failed query the previous list stays |
| `IpMatcher.TrustNeverDecides` | backend/internal/ipblock/ipblock.go:158-176 | With only allowed ranges in the list a trusted address is in none of them |
| `IpMatcher.BlockedIsMembership` | backend/internal/ipblock/ipblock.go:147-176 | So the trust test never changes the answer: a client is refused exactly when a block in force contains its address |
| `AddressMeaning.RefusedExactly` | backend/internal/ipblock/ipblock.go:147-176 | In plain numbers: a client, trusted or not, is refused exactly when its address lies in a range whose block has no end or ends later |
| `AddressMeaning.TrustsMeans` | backend/internal/ipblock/ipblock.go:107-136 | A client is trusted exactly when it and its socket peer are both loopback or some trusted range holds it |
| `IpMatcher.TrustedAddressList` | backend/internal/config/config.go:317-331 | The operator's list is read whole or not at all, and masking an entry keeps its members |
| `TalkgroupImport.TalkgroupTable.TalkgroupsImport` | backend/internal/admin/tgimport.go:326-455 | The apply loop: the first row with an id wins, missing talkgroups are created, others updated, groups and tags created on demand, and the three counts are the outcomes of the rows applied |
| `TalkgroupImport.TalkgroupTable.UpdateRow` | backend/internal/admin/tgimport.go:408-454 | One existing talkgroup: each field as filling or overwriting sets it, changed exactly when a field does |
| `TalkgroupImportTheorems.ImportIdempotent` | backend/internal/admin/tgimport.go:298-464 | The same import again, from freshly listed groups and tags, changes nothing and counts every id as unchanged, in both modes |
| `TalkgroupImportTheorems.CountsAddUp` | backend/internal/admin/tgimport.go:375-455 | Created, updated and unchanged add up to the distinct ids |
| `TalkgroupImportTheorems.FillKeeps` | backend/internal/admin/tgimport.go:294-297 | Filling changes no field that holds something |
| `TalkgroupImportTheorems.OverwriteTakes` | backend/internal/admin/tgimport.go:294-297 | Overwriting takes every field the file gives, groups and tags by a label equal to the name ignoring case |
| `ImportMeaning.EachRowHolds` | backend/internal/admin/tgimport.go:376-455 | After a whole import, in either mode, each talkgroup of the file holds what the first row with its id says: text trimmed, blank text ignored, a frequency, an order, and a group and tag whose labels equal the names ignoring case; a created one holds nothing else |
| `TalkgroupImportTheorems.OthersKept` | backend/internal/admin/tgimport.go:375-455 | Talkgroups the file does not name are left alone |
| `TalkgroupImportTheorems.ListingIndexes` | backend/internal/admin/tgimport.go:328-343 | The name lookup built from the label listing finds every label, and of labels that differ only by case the last in label order |
| `TextMeaning.LowerMeans` | backend/internal/admin/tgimport.go:328-343 | Lower case takes each letter A to Z to its small one and leaves every other character |
| `TalkgroupImportPreview.PreviewTalkgroupImport` | backend/internal/admin/tgimport.go:202-254 | The review loop lists the first row with each id with its status and changes, adds a problem for every later one, and counts the statuses |
| `TalkgroupImportPreview.EveryRowAccounted` | backend/internal/admin/tgimport.go:202-254 | Every row is listed or a problem, and the three counts add up to the rows listed, one for each id |
| `ImportMeaning.ChangesListed` | backend/internal/admin/tgimport.go:256-292 | The changes shown are exactly the fields the row gives that differ ignoring case, each under its name with the text there is now and the text of the file |
| `ImportMeaning.ProblemsListed` | backend/internal/admin/tgimport.go:228-234 | The problems added are exactly the rows whose id came before, by line and reason |
| `TalkgroupImportPreview.CreatedIsNew` | backend/internal/admin/tgimport.go:202-292 | Created is the review's New, in both modes |
| `TalkgroupImportPreview.UpdatedExactly` | backend/internal/admin/tgimport.go:408-446 | Overwriting updates a talkgroup exactly when some field the row gives is not, as spelled, what it has (a group or tag: not the label its name is found under) |
| `TalkgroupImportPreview.ChangedIsUpdated` | backend/internal/admin/tgimport.go:256-292 | Row by row, for rows as the CSV reader leaves them: shown as changed and not updated is exactly a lone frequency 0 where there is none, updated and not shown is exactly spelling alone, so the review is right exactly when the row is neither |
| `TalkgroupImportPreview.ChangedAreUpdated` | backend/internal/admin/tgimport.go:202-292 | Over a whole file: the rows updated and the lone zeros are as many as the rows shown as changed and those respelled |
| `TalkgroupImportPreview.ZeroFrequency` | backend/internal/admin/tgimport.go:423-425 | The exception: frequency 0 for a talkgroup without one is shown as changed and never written |
| `TalkgroupImportPreview.CaseOnly` | backend/internal/admin/tgimport.go:258-263 | A label that differs only by case is shown as unchanged and rewritten by overwriting |
| `TalkgroupImportFill.FilledExactly` | backend/internal/admin/tgimport.go:408-446 | Filling updates a talkgroup exactly when the row gives something for a blank field, a frequency of 0 being nothing |
| `TalkgroupImportFill.FilledIsShown` | backend/internal/admin/tgimport.go:256-292 | Row by row: what filling updates is shown as changed, and the rows shown and not updated are exactly those with no shown difference filling acts on |
| `TalkgroupImportFill.ShownAreFilled` | backend/internal/admin/tgimport.go:202-292 | Over a whole file: the rows shown as changed are those filling updates and those it leaves for that reason |
| `UnitImport.UnitTable.UnitsImport` | backend/internal/admin/csvimport.go:209-245 | The unit import writes and counts what a talkgroup import of rows with nothing but a label and an order would |
| `UnitImport.PreviewUnitImport` | backend/internal/admin/csvimport.go:130-177 | Its review lists and counts the rows as the talkgroup review does |
| `ImportMeaning.UnitProblemsListed` | backend/internal/admin/csvimport.go:130-177 | The problems added are exactly the units whose id came before, by line and reason |
| `UnitImport.UnitImportLaws` | backend/internal/admin/csvimport.go:209-245 | The same unit import again changes nothing and counts every unit of the file as unchanged; the three counts add up to these; created is the review's New |
| `UnitImport.UnitChangedAreUpdated` | backend/internal/admin/csvimport.go:158-245 | The units overwriting updates are those shown as changed and those whose label differs by case alone |
| `LabelImport.LabelTable.LabelsImport` | backend/internal/admin/csvimport.go:341-382 | The labels up to the first one refused are created unless their name is there ignoring case; a refusal leaves those before it in place; created is the rows gained and unchanged the rest |
| `TextMeaning.TrimOf` | backend/internal/admin/groups.go:165-174 | A label is taken without the space on both sides and with all else |
| `LabelImport.CreatedExactly` | backend/internal/admin/csvimport.go:357-378 | One label is created for every name of the file the table lacks, and afterwards every name is there |
| `LabelImport.ImportExtends` | backend/internal/admin/csvimport.go:357-378 | Existing labels are left alone, and no new label matches another label ignoring case |
| `LabelImport.LabelsIdempotent` | backend/internal/admin/csvimport.go:341-382 | The same labels again, from a fresh listing, create nothing |
| `LabelImport.PreviewLabelImport` | backend/internal/admin/csvimport.go:306-338 | The review lists the first row with each name, adds a problem for every later one, and counts the names the table lacks and has |
| `ImportMeaning.LabelsListed` | backend/internal/admin/csvimport.go:306-334 | The labels listed are the first with each name, ignoring case, each new exactly when no label there equals it so |
| `ImportMeaning.LabelProblemsListed` | backend/internal/admin/csvimport.go:316-325 | Every other label of the file is a problem, by line, its text and the reason |
| `LabelImport.NewIsCreated` | backend/internal/admin/csvimport.go:306-378 | For rows as the CSV reader leaves them, the labels created are the review's New |
| `Grants.RemapSystemsJSON` | backend/internal/admin/operations.go:235-272 | The rewriting of a stored list in its two shapes, by loops over its entries |
| `Grants.RemapExact` | backend/internal/admin/operations.go:235-272 | For a one-to-one remap the rewritten list covers remap(s) exactly when the list covered s, for all remapped s, if and only if the list is not a restriction whose every system drops out (or nothing is remapped) |
| `Grants.Widened` | backend/internal/admin/operations.go:258-271 | A restriction whose every system drops out turns into access to everything |
| `Grants.RemappedReads` | backend/internal/auth/grants.go:25-54 | What a rewritten column is read as: the mapped grants, everything when none is left, and nothing where it could not be read before |
| `Grants.StoredAllows` | backend/internal/auth/grants.go:18-54 | Which calls a stored column lets through: all for a blank or empty one, those some entry names where all entries are numbers or all are objects, none for anything else |
| `Grants.TalkgroupsNotRemapped` | backend/internal/admin/operations.go:260-268 | Access to a call is kept for the same talkgroup primary key, not for the key the talkgroup has now |
| `Grants.TalkgroupKept` | backend/internal/admin/operations.go:235-272 | Access to one talkgroup under its new key is what it was under the old one exactly when the list did not drop out whole and either covers the whole system or names both keys or neither |
| `Grants.TalkgroupsKeptExact` | backend/internal/admin/operations.go:235-272 | So over all the talkgroups a restore moved |
| `Grants.NamedTalkgroupsLost` | backend/internal/admin/operations.go:260-268 | When no new key is one the list names, access is kept exactly when the list did not drop out whole and names no talkgroup whose key moved in a system it does not cover whole |
| `Grants.TalkgroupExample` | backend/internal/admin/operations.go:260-268 | A grant on one talkgroup misses it once the restore gives the talkgroup another primary key |
| `IpBuckets.IpRateLimit.Handle` | backend/internal/middleware/limits.go:61-98 | One request: sweep once a window, restart an old bucket, refuse an untracked address when the table is full, and count |
| `IpBuckets.RunBounded` | backend/internal/middleware/limits.go:51-54 | The table never tracks more than maxBuckets addresses |
| `IpBuckets.AtMostTwice` | backend/internal/middleware/limits.go:55-100 | No address is admitted more than twice its allowance in any minute, ends included, sweeps and restarted buckets included |
| `IpBuckets.TwiceReached` | backend/internal/middleware/limits.go:83-93 | That bound is met for every allowance and every table size from 1 on |
| `DeliveryTracker.Tracker.Record` | backend/internal/delivery/tracker.go:84-105 | One outcome: the entry's last result, last success and recent results, and whether the row is written |
| `DeliveryTracker.StatsCountHistory` | backend/internal/delivery/tracker.go:108-124 | For results at rising times the stats are the sent and failed counts of the whole history within the last day |
| `DeliveryTracker.LastOutcome` | backend/internal/delivery/tracker.go:89-93 | The stats name the last result of the run and the time a delivery last worked, however old |
| `DeliveryTracker.RowFollows` | backend/internal/delivery/tracker.go:84-105 | From a fresh or row-seeded entry the row always has the outcome and status of the last result and is less than a minute older |
| `DeliveryTracker.WritesExactly` | backend/internal/delivery/tracker.go:94-104 | The row is written for every failure, every other status and every success after a failure, and for other successes once a minute has passed since the last write |
| `Ring.RingBuffer.Push` | backend/internal/logging/logging.go:44-53 | A push appends to the history the buffer stands for |
| `Ring.RingBuffer.Snapshot` | backend/internal/logging/logging.go:56-74 | The snapshot is the last cap pushes in order |
| `LogQuery.QueryEntries` | backend/internal/logging/logging.go:178-201 | The newest-first scan and the reversal in place give the last limit matches of the buffer in chronological order (one, for limit 0), the values of each entry joined in whatever order this call visits them |
| `LogQuery.Unfiltered` | backend/internal/logging/logging.go:186-192 | Without level, range and search every entry is shown, and a level shows exactly its own entries of what is shown without one |
| `LogQuery.CountEntries` | backend/internal/logging/logging.go:205-214 | The counts per level of the entries in range and search |
| `LogQuery.Matches` | backend/internal/logging/logging.go:218-234 | The range and the search of one entry: its message, then each attribute value in the order visited |
| `LogQuery.JoinedHolds` | backend/internal/logging/logging.go:228-233 | A query without a space is found exactly when the message or one value holds it, in every order |
| `LogQuery.CountsAgree` | backend/internal/logging/logging.go:203-204 | For such a query each count is the number of matches the list of that level is taken from, though the two calls visit the values in different orders |
| `LogQuery.SpaceDisagrees` | backend/internal/logging/logging.go:229-232 | For every query with a space inside there is an entry, and two orders, that the list shows and the count misses |
| `LogQuery.AgreeExact` | backend/internal/logging/logging.go:203-204 | So counts and lists always agree exactly for the queries without a space inside |
| `LogQuery.TwoWordsExample` | backend/internal/logging/logging.go:229-232 | The query x y and an entry with the values x and y |
| `LegacyUsage.NewLegacyUsageStore` | backend/internal/middleware/deprecation.go:66-80 | A new store has 4096 empty slots and no history |
| `LegacyUsage.Aggregate24h` | backend/internal/middleware/deprecation.go:114-168 | One entry per route and key among the last 4096 records in the window, with the exact count and latest time, sorted by time descending and then path |
| `LegacyUsage.SortEntries` | backend/internal/middleware/deprecation.go:155-166 | The insertion sort by swapping neighbours: sorted, same entries |
| `LegacyUsage.TotalsOfHistory` | backend/internal/middleware/deprecation.go:146-148 | Adding up the slots in slot order is adding up the last records, whatever slot each is in |
| `LegacyUsage.CountMeans` | backend/internal/middleware/deprecation.go:120-146 | The count of an entry is the number of records of exactly that route, method and API key since the cutoff |
| `TextMeaning.OrderMeans` | backend/internal/middleware/deprecation.go:159-162 | Paths are ordered byte by byte: a prefix first, else the smaller byte where they first differ |

## Left out

- Restore.RestoreTables: settings, users, API keys, forwarding targets, webhooks and Trunk Recorder brokers are not restored; the same match-and-update loops with weaker guarantees.
- RestoreReplace.RemoveAbsent: users, API keys, forwarding targets and webhooks are not pruned, for the same reason.
- RestoreAgain.ImportConfig: the tables other than the six radio ones, the saved snapshot of the previous configuration, secrets checks, reloads and broadcasts are not modelled.
- Preview.DiffRows: the example names of added, changed and removed rows are not produced; they do not enter any count.
- PreviewMeaning.PreviewBackup: users, settings, API keys, forwarding targets, webhooks and the warning about orphaned rows are not reviewed.
- MaskRoundTrip.PrintAndParse: separators are single characters; longer ones and text before or after the tokens are not covered.
- DeliveryTracker.RowFollows: the write-through happens after the lock is released, so two writes that overtake each other are not modelled.
- TranscriberTheorems.EveryRun: reading the current pool and testing the minimum length are one step.
- TokenRuns.RunKeeps: each operation reads the clock once, and a token's claims are what was tracked.
- RateTheorems.LockoutBound: limits do not change during the run.
- RateReach.EveryRunBoundedExact: time is a whole number, so a lockout of one tick has no instant inside it; the source counts nanoseconds.
- IpMatcher.TrustNeverDecides: the trusted list is the one the blocks were checked against.
- LabelImport.PreviewLabelImport: the quoted text of a label in a problem is a parameter.
- SQL text, JSON, CSV and base64 coding, JWT signing, and the text forms of IP addresses: values arrive decoded.
- Case folding and trimming beyond ASCII, and integers wider than 64 bits: characters are ASCII for folding, integers are unbounded.
- ApplyMaskValues and TokensFromCall: field copies and number formatting, with floating-point parsing.
- The CSV readers: what they leave (trimmed text, never empty) is a condition where it matters.
- HTTP handlers, timers, goroutine start-up, file watching, FFmpeg and the transcription request itself: their outcomes are parameters.
- The list of lockouts, the token cookie, connection history and the other admin reports: they would only add easy members.
