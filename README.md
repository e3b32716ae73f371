# Email triage and backup scripts: a verified model

This project is a Dafny model of the deterministic core of three personal automation scripts.

- `icloud_triage.py` lists the unread iCloud messages, which it reads through the Chilkat IMAP library. It parses each message into subject, sender, date and a whitespace-cleaned body. It asks a local LLM for a label and maps the reply onto a closed set of four labels. A message labelled "🅾️ Action Required" gets a six-line block appended to `action_emails.txt` and a page in a Notion database.
- `gmail_triage.py` does the same for Gmail with `imaplib`. Its parse walks the MIME parts for the first plain-text body. Its classifier returns the model's stripped reply as free text.
- `backup.py` copies each configured source folder into its destination. The copy is named from the source's basename and one timestamp shared by the whole run. A fixed set of file names is skipped. An error in one backup is reported and the next backup still runs.

Modules:

- `Common` holds `Option` and a `byte` type.
- `PyStr` holds the Python string operations the scripts use:
  - `str.isspace` over the whole Unicode whitespace set;
  - `strip`;
  - `replace(x, "")` as one left-to-right pass;
  - slicing with `[:n]`;
  - the `in` test on strings.
- `HtmlText` holds `re.sub('<[^<]+?>', '', s)` and `re.sub(r'\s+', ' ', s).strip()`.
- `Classifier` holds both prompts and both reply-to-label mappings. The model is an oracle `ask` from prompt to reply.
- `Records` holds the date value, the log block and the Notion page. It also holds `Outbox`, a class whose two fields are the log file and the Notion database. Both are only ever appended to.
- `ICloudTriage` and `GmailTriage` each hold the parse, the per-message `Step` and `Run` specification, and the imperative driver loops. The loops are proved against `Run`.
- `Backup` holds `should_skip`, the path construction and the `Disk` class. That class holds the set of existing folders and `makedirs`/`copytree` as methods. The per-config loop is proved against the specification function `Backups`.

Everything outside the scripts is an input of the model. That covers:

- the IMAP server;
- the LLM;
- `dateutil`;
- MIME decoding;
- whether a file opens;
- whether Notion accepts a page;
- what the file system raises.

iCloud inputs are functions of the message uid. Gmail inputs are functions of the message id.

Three behaviours of the code deserve stating on their own:

- Only a reply that cleans to exactly "🅾️ Action Required", emoji included, routes a message. In `icloud_triage.py` the cleaning strips the reply and deletes "Classification: " and the quotes, so `'🅾️ Action Required'` routes there and not in `gmail_triage.py`, which only strips (`Classifier.QuotedLabelRoutesOnlyInICloud`). The reply "Action Required" does not route in either script (`Classifier.PlainWordsDoNotRoute`).
- Only the iCloud classifier returns one of a closed set of labels. The Gmail classifier returns any stripped reply, `""` included (`Classifier.GmailLabelOpenEnded`).
- In `gmail_triage.py`, four failures raise out of the loop body and end the whole run (`GmailTriage.CrashStopsRun`): `message_from_bytes` given a fetched element that is not bytes (`GmailTriage.MessageRaises`), and, inside `parse_email`, a malformed encoded word in the Subject, a Subject in an unknown charset, and a second failing `get_payload`. That script also never logs out.

## Model

| member | source | states |
|---|---|---|
| PyStr.LStripSpec | icloud_triage.py:103 | `lstrip` removes exactly the leading whitespace run: the result is a suffix and does not start with whitespace |
| PyStr.RStripSpec | icloud_triage.py:103 | `rstrip` removes exactly the trailing whitespace run: the result is a prefix and does not end with whitespace |
| PyStr.StripIsSlice | icloud_triage.py:103 | `strip()` returns a contiguous slice of its input |
| PyStr.StripEnds | icloud_triage.py:103 | the result of `strip()` has no whitespace at either end |
| PyStr.StripKeepsNonSpace | gmail_triage.py:94 | `strip()` keeps every non-whitespace character, in order |
| PyStr.StripAllSpace | icloud_triage.py:103 | an all-whitespace string strips to `""` |
| PyStr.Strip | icloud_triage.py:103 | `strip()`: a slice of its input with no whitespace at either end (`PyStr.StripIsSlice`, `PyStr.StripEnds`) |
| PyStr.LStripAppend | icloud_triage.py:103 | `lstrip` of `a + b` strips only inside `a` when `a` ends in a non-whitespace character |
| PyStr.RStripAppend | icloud_triage.py:103 | `rstrip` of `a + b` strips only inside `b` when `b` starts with a non-whitespace character |
| PyStr.LStripSpacesThen | icloud_triage.py:103 | a whitespace run before text that starts with a non-whitespace character is exactly what `lstrip` removes |
| PyStr.ContainsSpec | gmail_triage.py:54 | the substring test `t in s` holds exactly when `t` occurs at some index of `s` |
| PyStr.Contains | gmail_triage.py:54 | the `in` test on strings, pinned down by `PyStr.ContainsSpec` |
| PyStr.DeleteAll | icloud_triage.py:103 | `replace(pat, "")` in one left-to-right pass: never longer than its input; its deletions are stated by `PyStr.DeleteKeepsUnmatched` and `PyStr.DeleteLeading`, which together fix the result on every input, and by `PyStr.DeleteAt`, `PyStr.DeleteAbsent`, `PyStr.DeleteLeading`, `PyStr.DeleteCharAppend` and `PyStr.DeleteCharRemovesAll` |
| PyStr.DeleteAbsent | icloud_triage.py:103 | text in which `pat` does not occur is left unchanged |
| PyStr.DeleteLeading | icloud_triage.py:103 | an occurrence of `pat` at the start is deleted, and the pass goes on after it |
| PyStr.DeleteKeepsUnmatched | icloud_triage.py:103 | for every `a` at none of whose indices `pat` occurs in `a + b`: `DeleteAll(a + b, pat) == a + DeleteAll(b, pat)`, so a character that starts no occurrence is kept, even one equal to `pat[0]` |
| PyStr.DeleteAt | icloud_triage.py:103 | for every `a` at none of whose indices `pat` occurs in `a + pat + b`: the occurrence after `a` is deleted where it stands, and `a` and the deletion of the rest are kept: `DeleteAll(a + pat + b, pat) == a + DeleteAll(b, pat)` |
| PyStr.DeleteAfterFalseStart | icloud_triage.py:103 | `"aab".replace("ab", "")` is `"a"` |
| PyStr.DeleteCharAppend | icloud_triage.py:103 | deleting one character works piece by piece over a concatenation |
| PyStr.KeptWhenHeadDiffers | icloud_triage.py:103 | text that does not start with `pat` and holds no later copy of its first character is left unchanged |
| PyStr.DeleteCharBetween | icloud_triage.py:103 | deleting the one `c` between two `c`-free texts joins them |
| PyStr.DeleteCharRemovesAll | icloud_triage.py:103 | `replace(c, "")` is `s` with every `c` filtered out: no `c` is left, and every other character stays, in order |
| PyStr.WithoutSpec | icloud_triage.py:103 | filtering out `c` keeps a subsequence of `s` that holds no `c` and every other character as often as `s` does |
| PyStr.Take | icloud_triage.py:97 | `s[:n]` is the prefix of `s` of length `n`, or all of `s` when it is no longer than `n` |
| HtmlText.TagLength | icloud_triage.py:80 | the lazy match of `<[^<]+?>` is the shortest prefix that is `<`, one or more non-`<` characters and `>`, or none |
| HtmlText.TagEndAt | icloud_triage.py:80 | the lazy match ends at the first `>`: with no `<` or `>` between the opening `<` and position `n`, the tag ends right after `n` |
| HtmlText.TagLengthOfTag | icloud_triage.py:80 | for every non-empty `x` without `<` or `>`: the tag at the start of `<x>` + `b` is exactly `<x>`, whatever `b` is |
| HtmlText.StripTagsKeepsOrder | icloud_triage.py:80 | tag stripping never lengthens the text, and what it keeps is a subsequence of the input |
| HtmlText.StripTagsWithoutOpener | icloud_triage.py:80 | text without `<` comes back unchanged |
| HtmlText.NoCloserNoTag | icloud_triage.py:80 | no match starts in text without `>` |
| HtmlText.StripTagsKeepsUnmatched | icloud_triage.py:80 | for every `a` at none of whose indices a match starts in `a + b`: `StripTags(a + b) == a + StripTags(b)`, so a character that starts no match is kept, a `<` included |
| HtmlText.StripTagsWithoutCloser | icloud_triage.py:80 | text without `>` comes back unchanged |
| HtmlText.UnclosedTagKept | icloud_triage.py:80 | `<a` stays `<a` |
| HtmlText.NestedTagLeavesTag | icloud_triage.py:80 | `<a<b>>` becomes `<a>`: the result need not be free of tags |
| HtmlText.StripTagsAt | icloud_triage.py:80 | for every `a` at none of whose indices a match starts and every tag `t` that matches at the start of `t + b`: `StripTags(a + t + b) == a + StripTags(b)`, so the text before a tag is kept and the tag goes |
| HtmlText.StripTagsOfTag | icloud_triage.py:80 | for every `a` at none of whose indices a match starts and non-empty `x` without `<` or `>`: `StripTags(a + "<x>" + b) == a + StripTags(b)` |
| HtmlText.StripTags | icloud_triage.py:80 | `re.sub('<[^<]+?>', '', s)`: never longer than its input; it deletes each tag where it stands (`HtmlText.StripTagsAt`, `HtmlText.StripTagsOfTag`) and keeps every character at which no match starts (`HtmlText.StripTagsKeepsUnmatched`); these two fix the result on every input; what it keeps and what it leaves are also stated by the lemmas above |
| HtmlText.CollapseSpaceShape | icloud_triage.py:88 | after `\s+` → `' '` the only whitespace is `' '`, no two whitespace characters are adjacent, and the ends keep their whitespace status; `HtmlText.CollapseSpaceBetween` pins down where each space goes |
| HtmlText.CollapseSpaceKeepsNonSpace | icloud_triage.py:88 | collapsing keeps every non-whitespace character, in order |
| HtmlText.CollapseSpace | icloud_triage.py:88 | `re.sub(r'\s+', ' ', s)`: empty exactly for empty input, and starting with whitespace exactly when the input does |
| HtmlText.CollapseSpaceAppend | icloud_triage.py:88 | text that ends in a non-whitespace character collapses independently of what follows it |
| HtmlText.CollapseSpaceRun | icloud_triage.py:88 | a whitespace run, however long, becomes exactly one `' '` before the collapsed rest |
| HtmlText.CollapseSpaceBetween | icloud_triage.py:88 | for every whitespace run `w` between `a` and `b`, `a + w + b` collapses to collapsed `a`, one `' '` and collapsed `b` |
| HtmlText.CollapseSpaceOfWord | icloud_triage.py:88 | text without whitespace is left unchanged by the collapse |
| HtmlText.CleanSpace | icloud_triage.py:88 | the cleaned body is clean text (no whitespace at its ends, only single spaces inside) with the same non-whitespace characters; `HtmlText.CleanSpaceBetween` says where its spaces go |
| HtmlText.CleanSpaceBetween | icloud_triage.py:88 | for every non-empty whitespace run `w` between two pieces of text that do not touch it with whitespace, `a + w + b` cleans to cleaned `a`, one `' '` and cleaned `b` |
| HtmlText.CleanSpaceOfWord | icloud_triage.py:88 | a word without whitespace is left unchanged by the clean-up |
| HtmlText.CleanTwoWords | icloud_triage.py:88 | two words separated by any whitespace run clean to the words joined by one space |
| HtmlText.CleanThreeWords | icloud_triage.py:88 | three words separated by any two whitespace runs clean to the words joined by single spaces |
| HtmlText.CleanSpaceOfClean | icloud_triage.py:88 | clean text is left unchanged by the clean-up |
| HtmlText.CleanSpaceIdempotent | icloud_triage.py:88 | cleaning twice is cleaning once |
| Classifier.NormaliseReply | icloud_triage.py:103 | the cleaned-up reply contains no `'` or `"` and is no longer than the reply |
| Classifier.ICloudLabelClosed | icloud_triage.py:101-110 | the iCloud label is one of exactly four strings, and it is "Unknown" exactly when the reply is `False` or `""` |
| Classifier.ICloudLabel | icloud_triage.py:101-110 | the iCloud mapping from a reply to a label, pinned down by `Classifier.ICloudLabelClosed` and `Classifier.ICloudLabelExactMatch` |
| Classifier.HasText | icloud_triage.py:101 | `isinstance(content, str) and content`: stated by `Classifier.ICloudLabelClosed` (the label is "Unknown" exactly when the reply is not a non-empty string) and `Classifier.GmailLabelSpec`, for the same test at gmail_triage.py:93 |
| Classifier.ICloudLabelExactMatch | icloud_triage.py:104-107 | a reply gets a label exactly when its cleaned form equals that label, and "Low Priority" otherwise |
| Classifier.ICloudWhitespaceReply | icloud_triage.py:101-107 | a whitespace-only reply is "Low Priority", not "Unknown" |
| Classifier.NormaliseQuoted | icloud_triage.py:103 | for every `t` without `C`, `'` or `"`: the reply `'<t>'` cleans to `t`, so surrounding single quotes are deleted and the quoted text stays, spaces included |
| Classifier.ICloudQuoted | icloud_triage.py:103-107 | for every `t` without `C`, `'` or `"`: the reply `'<t>'` gets the label `t` if it is one, and "Low Priority" otherwise |
| Classifier.NormalisePrefixed | icloud_triage.py:103 | for every non-empty `t` with no whitespace at either end: the reply `Classification: <t>` cleans exactly as `t` does, so a leading "Classification: " is as if it were not there |
| Classifier.PrefixWordDeleted | icloud_triage.py:103 | deleting "Classification: " from `Classification: <t>` leaves `t` whenever `t` holds no other copy of it |
| Classifier.PrefixWithQuoteKept | icloud_triage.py:103 | `Classi'fication: <t>` holds no "Classification: " to delete when `t` has no `C` |
| Classifier.PrefixWithQuoteRebuilt | icloud_triage.py:103 | deleting the quote from `Classi'fication: <t>` rebuilds `Classification: <t>` when `t` has no `'` |
| Classifier.QuoteHidesPrefix | icloud_triage.py:103 | for every `t` without `C`, `'` or `"` whose last character is not whitespace: the prefix deletion runs before the quote deletion, so `Classi'fication: <t>` cleans to `Classification: <t>`, where deleting the quotes first would have removed the prefix and left `t` |
| Classifier.QuotesFirstUncoverPrefix | icloud_triage.py:103 | for every `t` without `C` or `'`: the other order, quotes first and then "Classification: ", turns `Classi'fication: <t>` into `t` |
| Classifier.QuoteInPrefixIsLow | icloud_triage.py:103-107 | every reply `Classi'fication: <t>` with trimmed, marker-free `t` keeps its prefix through the clean-up and gets "Low Priority" |
| Classifier.PrefixDeletedBeforeQuotes | icloud_triage.py:103-107 | `Classi'fication: Spam` gets "Low Priority", while the reverse deletion order would have given "Spam" |
| Classifier.ICloudPrefixedQuoted | icloud_triage.py:103-107 | for every `t` without `C`, `'` or `"`: the reply `Classification: '<t>'` gets the label `t` if it is one, and "Low Priority" otherwise |
| Classifier.QuotedWholeReply | icloud_triage.py:103 | for every `t` without `C`, `'` or `"`: the reply `'Classification: <t>'`, quotes around the whole, cleans to `t` |
| Classifier.ICloudQuotedWhole | icloud_triage.py:103-107 | for every such `t`: the reply `'Classification: <t>'` gets the label `t` if it is one, and "Low Priority" otherwise |
| Classifier.QuotedWholeSpam | icloud_triage.py:103-105 | the reply `'Classification: Spam'` is labelled "Spam" |
| Classifier.QuotedSpaceStays | icloud_triage.py:103-107 | spaces that the deletions expose are not trimmed again: `' Spam'` gives "Low Priority" |
| Classifier.PrefixedQuotedSpam | icloud_triage.py:103-105 | `Classification: 'Spam'` gives "Spam" |
| Classifier.ICloudStrippedLabel | icloud_triage.py:103-105 | a reply that strips to a label gets that label |
| Classifier.LabelsHaveNoMarkers | icloud_triage.py:104 | none of the three labels contains a character that the clean-up deletes |
| Classifier.ICloudPlainOther | icloud_triage.py:104-107 | a trimmed, marker-free reply that is not a label gives "Low Priority" |
| Classifier.PlainWordsDoNotRoute | icloud_triage.py:104-107 | the reply "Action Required" gives "Low Priority" in the iCloud variant, and it is not the routing label in the Gmail variant |
| Classifier.ICloudPromptSeesFirst500 | icloud_triage.py:94-99 | two iCloud prompts are equal exactly when the bodies agree on their first 500 characters |
| Classifier.ICloudPrompt | icloud_triage.py:94-99 | the iCloud prompt, the same for two bodies exactly when they agree on their first 500 characters (`Classifier.ICloudPromptSeesFirst500`) |
| Classifier.ICloudLabelIgnoresTail | icloud_triage.py:93-100 | bodies that agree on their first 500 characters get the same iCloud label |
| Classifier.ClassifyICloud | icloud_triage.py:93-110 | the iCloud `classify_email`: the label of the model's reply to the prompt, one of four strings (`Classifier.ICloudLabelClosed`) that ignores the body after 500 characters (`Classifier.ICloudLabelIgnoresTail`) |
| Classifier.GmailLabelSpec | gmail_triage.py:91-100 | the Gmail label is "Unknown" without reply text; otherwise it is the contiguous slice of the reply starting at the first non-whitespace character, with only whitespace dropped on either side and none left at its ends |
| Classifier.GmailLabel | gmail_triage.py:93-97 | the Gmail mapping from a reply to a label, pinned down by `Classifier.GmailLabelSpec` |
| Classifier.GmailLabelOpenEnded | gmail_triage.py:93-94 | the Gmail label can be free text, and a whitespace-only reply gives `""` |
| Classifier.GmailLabelImpliesICloudLabel | gmail_triage.py:93-94 | whenever the Gmail variant yields a label, the iCloud variant yields the same label for that reply |
| Classifier.QuotedLabelRoutesOnlyInICloud | icloud_triage.py:103-105 | the quoted routing label routes in the iCloud variant and not in the Gmail variant |
| Classifier.GmailPromptSeesWholeBody | gmail_triage.py:85-90 | the Gmail prompt carries the whole body: different bodies give different prompts |
| Classifier.GmailPrompt | gmail_triage.py:85-90 | the Gmail prompt, different for different bodies (`Classifier.GmailPromptSeesWholeBody`) |
| Classifier.GmailLabelCanSeeTail | gmail_triage.py:84-100 | for any two different bodies, some model reply routes one and not the other |
| Classifier.ClassifyGmail | gmail_triage.py:84-100 | the Gmail `classify_email`: the stripped reply or "Unknown" (`Classifier.GmailLabelSpec`), which can depend on the whole body (`Classifier.GmailLabelCanSeeTail`) |
| Records.DateOf | icloud_triage.py:61-70 | an empty Date header or one that fails to parse gives "Unknown Date"; otherwise the parsed datetime |
| Records.DateDisplay | icloud_triage.py:149 | `f"{date_received}"`: a parsed date prints as its own text and the fallback as "Unknown Date"; `Records.LogBlockInjective` shows the printed date is kept in the block |
| Records.LogBlock | icloud_triage.py:147-153 | the log block is six writes, from the header line to the rule line |
| Records.LogBlockInjective | icloud_triage.py:148-153 | equal blocks carry the same printed date, subject, label and body |
| Records.NotionPageFor | icloud_triage.py:157-189 | Subject and From are unchanged; Body is a prefix of the body of length `min(2000, len)`; Date start is the ISO text exactly for a real datetime |
| Records.Outbox.Append | icloud_triage.py:147-153 | the append-mode writes land after what the log already holds; nothing else changes |
| Records.Outbox.CreatePage | icloud_triage.py:190 | one page is added to the database; the log is unchanged |
| ICloudTriage.NoBodyContentIsClean | icloud_triage.py:82 | the default body is already clean text |
| ICloudTriage.ParseBody | icloud_triage.py:72-88 | the body of `parse_email`, stated by `ICloudTriage.ParseBodyClean` |
| ICloudTriage.ParseBodyClean | icloud_triage.py:72-88 | the body is the cleaned plain body when there is one, else the cleaned tag-stripped HTML body when there is one, else "No body content"; it is clean text with the same non-whitespace characters as its origin |
| ICloudTriage.NoBodyContentOrigin | icloud_triage.py:72-88 | "No body content" comes only from a message with neither body, or from one whose own body cleans to those three words |
| ICloudTriage.SpacedNoBodyContent | icloud_triage.py:72-88 | a plain body of the words "No", "body", "content", separated by any whitespace runs, gives "No body content" too |
| ICloudTriage.ParseEmail | icloud_triage.py:54-90 | "No Subject", "Unknown Sender" and "Unknown Date" replace missing fields; the body is the clean body |
| ICloudTriage.FetchUnreadEmails | icloud_triage.py:40-51 | the uids are the message set in index order, and `[]` when there is no set |
| ICloudTriage.StepRouting | icloud_triage.py:128-197 | a uid logs a six-line block exactly when it is fetched, labelled "🅾️ Action Required" and the log file opens; it makes a page exactly when, in addition, Notion accepts it |
| ICloudTriage.StepContents | icloud_triage.py:145-190 | the block and the page of a routed message are built from the same parsed fields |
| ICloudTriage.Step | icloud_triage.py:129-197 | one pass of the loop, stated by `ICloudTriage.StepRouting` and `ICloudTriage.StepContents` |
| ICloudTriage.Run | icloud_triage.py:128-197 | the loop over the uids, stated by `ICloudTriage.RunAppend`, `ICloudTriage.FailedFetchSkipsOnlyIt` and `ICloudTriage.RunBlocks` |
| ICloudTriage.RunAppend | icloud_triage.py:128-197 | the run over `a + b` is the run over `a` followed by the run over `b` |
| ICloudTriage.FailedFetchSkipsOnlyIt | icloud_triage.py:131-134 | a uid that fails to fetch is skipped and the others run as if it were absent |
| ICloudTriage.RunBlocks | icloud_triage.py:145-153 | the log holds six writes per logged uid, and there are no more pages than logged uids |
| ICloudTriage.HandleUid | icloud_triage.py:129-197 | one loop pass appends exactly that uid's step to the outbox |
| ICloudTriage.HandleAll | icloud_triage.py:128-197 | the loop appends the run over the uids, in order |
| ICloudTriage.TriageEmails | icloud_triage.py:113-200 | the session is disconnected exactly when it was connected, unread mail or not; the outbox gets the run over the uids; nothing changes without a connection |
| GmailTriage.SplitWords | gmail_triage.py:22 | every id that `split()` yields is non-empty and holds no ASCII whitespace |
| GmailTriage.SplitJoin | gmail_triage.py:22 | splitting a space-joined id list gives back the same ids in the same order |
| GmailTriage.FetchUnreadEmails | gmail_triage.py:20-23 | there are no ids (the exception) exactly for an empty search data list, which also stands for `[None]` and a raising search; otherwise there are the split words of its first entry |
| GmailTriage.SubjectOf | gmail_triage.py:29-31 | the subject: the header text, a bytes piece decoded with its charset or UTF-8, or nothing when it raises (`GmailTriage.ParseDefaults`, `GmailTriage.ParseFailures`) |
| GmailTriage.Qualifies | gmail_triage.py:50-57 | a part is taken when it is `text/plain`, not an attachment, and its payload is bytes (`GmailTriage.FirstPlain`) |
| GmailTriage.DispositionText | gmail_triage.py:51 | `str(part.get('Content-Disposition'))`, `"None"` for a missing header: `GmailTriage.NoDispositionIsNoAttachment` states that such a part is no attachment |
| GmailTriage.FirstPlain | gmail_triage.py:47-62 | the chosen part qualifies and no earlier part does; when there is none, no part qualifies |
| GmailTriage.SelectPlainBody | gmail_triage.py:47-62 | the loop returns the decoded first qualifying part, or `""` when none qualifies |
| GmailTriage.PlainBody | gmail_triage.py:47-62 | the multipart body the loop computes (`GmailTriage.SelectPlainBody`) |
| GmailTriage.SingleBody | gmail_triage.py:63-75 | the body of a message that is not multipart: bytes decoded as UTF-8 ignoring errors, text as is, anything else as `str` of it (`GmailTriage.ParseBodyVerbatim`); missing only when the retried `get_payload` raises (`GmailTriage.ParseFailures`) |
| GmailTriage.ParseEmail | gmail_triage.py:25-82 | the method with the part loop computes `Parse` |
| GmailTriage.Parse | gmail_triage.py:25-82 | `parse_email`, stated by `GmailTriage.ParseDefaults`, `GmailTriage.ParseBodyVerbatim` and `GmailTriage.ParseFailures` |
| GmailTriage.ParseDefaults | gmail_triage.py:28-44 | "No Subject" without Subject, "Unknown Sender" without From, and "Unknown Date" for an absent, empty or unparseable Date; otherwise the header values, with a bytes subject decoded by its declared charset or by UTF-8 when it declares none |
| GmailTriage.ParseBodyVerbatim | gmail_triage.py:46-82 | the body is the first qualifying part, `""`, or the single payload as decoded, with no whitespace clean-up |
| GmailTriage.ParseFailures | gmail_triage.py:29-75 | `parse_email` raises exactly when `decode_header` raises, when a bytes Subject has an unknown charset, or when a single-part message's retry of `get_payload` raises |
| GmailTriage.NoDispositionIsNoAttachment | gmail_triage.py:51-54 | a part without Content-Disposition (`"None"`) is not an attachment |
| GmailTriage.Usable | gmail_triage.py:108 | the guard on the fetch response (`GmailTriage.UnusableSkipsOnlyIt`) |
| GmailTriage.Message | gmail_triage.py:109-110 | `message_from_bytes(msg_data[0][1])` then `parse_email`, stated by `GmailTriage.MessageRaises` |
| GmailTriage.MessageRaises | gmail_triage.py:26-110 | for a usable response: the message is missing (an exception) exactly when the fetched element is not bytes or parsing the message raises (`GmailTriage.ParseFailures`) |
| GmailTriage.StepRouting | gmail_triage.py:105-176 | a routed message logs exactly when the file opens and makes a page exactly when Notion accepts, independently of each other; a crash leaves no effects |
| GmailTriage.Route | gmail_triage.py:119-172 | the two writes of a routed message, each in its own `try`: `GmailTriage.StepRouting` states that the log block is written exactly when the file opens and the Notion page exactly when Notion takes it, each independently of the other |
| GmailTriage.Step | gmail_triage.py:106-176 | one pass of the loop, stated by `GmailTriage.StepRouting` |
| GmailTriage.RunAppend | gmail_triage.py:105-176 | the run over `a + b` is the run over `a`, then the run over `b` unless `a` crashed |
| GmailTriage.UnusableSkipsOnlyIt | gmail_triage.py:108-176 | an id whose fetch response fails the guard is skipped and the others run as if it were absent |
| GmailTriage.CrashStopsRun | gmail_triage.py:110 | a message whose parse raises ends the run; no later id has any effect |
| GmailTriage.Run | gmail_triage.py:105-176 | the loop over the ids until an exception, stated by `GmailTriage.RunAppend`, `GmailTriage.UnusableSkipsOnlyIt` and `GmailTriage.CrashStopsRun` |
| GmailTriage.HandleId | gmail_triage.py:106-176 | one loop pass appends exactly that id's step and reports whether it raised |
| GmailTriage.HandleAll | gmail_triage.py:105-176 | the loop appends the run's effects and reports whether the run crashed |
| GmailTriage.TriageEmails | gmail_triage.py:102-176 | a failed connection or an empty search list raises with nothing written; otherwise the outbox gets the run's effects |
| Backup.ShouldSkipIsFilter | backup.py:41-43 | the skipped names are a subsequence of `names`, all in `skip_items`, each as often as in `names`; `path` has no effect |
| Backup.ShouldSkip | backup.py:41-43 | `should_skip`, stated by `Backup.ShouldSkipIsFilter` |
| Backup.ShouldSkipIdempotent | backup.py:43 | filtering the result again gives the same list |
| Backup.ExactNames | backup.py:23-43 | matching is exact membership: `.git` and `wandb` are skipped, `.github` and `wandb_logs` are not |
| Backup.RStripSlashSpec | backup.py:58 | `rstrip('/')` removes exactly the trailing run of `/` |
| Backup.RStripSlash | backup.py:58 | `rstrip('/')`, stated by `Backup.RStripSlashSpec` |
| Backup.BasenameSpec | backup.py:58 | the basename is the text after the last `/`, with no `/` in it |
| Backup.Basename | backup.py:58 | `os.path.basename`, stated by `Backup.BasenameSpec` |
| Backup.JoinPath | backup.py:59 | `os.path.join` of a folder and a name without a leading `/` (`Backup.BackupPathShape`) |
| Backup.BackupName | backup.py:58-59 | `f"{source_name}_backup_{timestamp}"`: stated by `Backup.BackupPathShape` (a name without `/` that ends in `_backup_<timestamp>`) and `Backup.BackupNameOfFolder` (the source's last folder, trailing slashes ignored) |
| Backup.BackupPath | backup.py:58-59 | the backup path of one config, stated by `Backup.BackupPathShape` and `Backup.BackupNameOfFolder` |
| Backup.BackupPathShape | backup.py:58-59 | the backup path is the destination, a `/` unless the destination ends in one, and a name without `/` |
| Backup.BasenameOfFolder | backup.py:58 | `dir/folder` with any number of trailing `/` has basename `folder` |
| Backup.BackupNameOfFolder | backup.py:58-59 | the backup of `dir/folder/` is named `folder_backup_<timestamp>` |
| Backup.DocumentsName | backup.py:58-59 | `/Users/janduplessis/Documents/` is backed up as `Documents_backup_<timestamp>` |
| Backup.Report | backup.py:74-81 | no `except` clause reports success; which clause reports what is stated by `Backup.ReportCases` |
| Backup.ReportCases | backup.py:74-81 | each `except` clause names its cause, both ways: `FileExistsError` exactly for AlreadyExists at the backup path, `PermissionError` exactly for PermissionDenied, `FileNotFoundError` exactly for SourceNotFound of the config's source, and any other exception exactly for Failed with its message |
| Backup.BackupOne | backup.py:61-81 | one `try` block on the folder set, stated by `Backup.BackupOneShape`, `Backup.BackupOneFolders`, `Backup.BackupOneCompletes` and `Backup.BackupOneFirstFault` |
| Backup.BackupOneShape | backup.py:61-81 | one config only adds folders; it completes only at its own backup path, which was new; error reports name that path or source |
| Backup.BackupOneFolders | backup.py:66-81 | one config adds at most its destination and its backup folder, and the backup folder only for a completed or a failed copy: every error raised before `copytree` makes it leaves it unmade; a failed copy reports the `shutil.Error` message |
| Backup.BackupOneCompletes | backup.py:61-72 | a config completes exactly when no step raises, its source exists once the destination is made, and its backup folder did not exist; it then leaves exactly the destination and the backup folder added |
| Backup.BackupOneFirstFault | backup.py:61-81 | the first step that raises decides the report: a `makedirs` fault leaves the folders as they were, a missing source gives SourceNotFound, a listing fault its own report, an existing backup folder AlreadyExists, a creation fault its own report, all four with only the destination added, and a copy fault Failed with its message and the backup folder made |
| Backup.Backups | backup.py:53-83 | every config gets exactly one report |
| Backup.BackupsReportEach | backup.py:46-83 | every config is reported, in order, whatever failed before; a completed backup sits at that config's path under the one shared timestamp; folders are only added |
| Backup.BackupsAt | backup.py:53-83 | config `n`'s report depends only on the folders left by the configs before it |
| Backup.BackupsPrefix | backup.py:53-83 | the reports for the first `n` configs do not depend on the configs after them |
| Backup.SamePathCompletesOnce | backup.py:59-70 | two configs with the same backup path cannot both complete |
| Backup.Disk.MakeDirs | backup.py:66 | `makedirs(exist_ok=True)` adds the folder unless it raises |
| Backup.Disk.CopyTree | backup.py:70 | a missing source raises `FileNotFoundError`, and a failing listing of the source its own error, before the existing-target check; an existing target raises `FileExistsError`, and a failing creation its own error; none of these makes a folder; otherwise the target is created and a copy failure is raised as one `shutil.Error`, which only the generic `except` catches |
| Backup.Disk.BackupConfig | backup.py:61-81 | one `try` block with its `except` clauses computes `BackupOne` on the folder set |
| Backup.RunBackups | backup.py:53-83 | the loop produces exactly the reports and the final folders of `Backups`, with 1-based indices |

## Left out

- IMAP and Chilkat sessions (`connect_icloud`, `connect_gmail`, `Search`, `FetchSingle`, `mail.fetch`) are foreign I/O. Their results are inputs. A `mail.fetch` that raises is not modelled. A `mail.search` that raises, or that returns `[None]` so that `.split()` raises, is folded into an empty search result: in all three cases the Gmail run raises with nothing written. A search answered with NO, whose error text would then be split into ids, is not modelled.
- `utils/ollama.py` is the HTTP call to the LLM. Only its `str`-or-`False` result is modelled, as `Reply`. The model's answer is a function of the prompt.
- `dateutil.parser.parse`, `str()` and `isoformat()` of a datetime, `decode_header`, `get_payload(decode=True)` and `bytes.decode(errors='ignore')` are library internals. They are inputs: `parseDate`, `DateTime`'s two renderings, `HeaderChunk` and `Decoders`.
- `password.py` is random password generation with no deterministic logic.
- Console output and the hardcoded credentials and ids are not modelled.
- `Records.Outbox.Append`: a log open that fails is modelled as no writes at all. A write that fails part-way through the six writes is not modelled.
- `Backup.Disk.CopyTree`: the tree is not walked. The model records that the target folder exists and takes the message of the `shutil.Error` raised for the files that could not be copied as an input. So `should_skip` is not connected to the copied files, and what a partial copy holds is not modelled. A source that exists but is a file is modelled as a failing listing.
- `Backup.RunBackups`: the timestamp `datetime.now().strftime(...)` comes from the clock and is a parameter. The folder set compares paths as strings: it does not normalise them, and creating a folder does not create its parents in the set.
- The subject default "No Subject" is assumed to come back from `decode_header` as itself.
