# newsd in Dafny

A model of newsd, a small NNTP news server written in C++, together with
proofs about that model. The server keeps each newsgroup as a directory of
article files under a spool directory. A group's `.info` file holds its
counters (start, end, total) and its `.config` file holds its settings
(description, creator, posting switch and line limit, mail copy addresses,
reply address, void address). The model covers these parts:

- Reading the server's directive file, and the authentication gate
  (`Configuration`, `ConfigSyntax`).
- Article files: header loading, header unfolding, sending heads and bodies
  with dot-stuffing, and overview lines (`Articles`, `ArticleObject`).
- Group directories: the `.info` and `.config` formats and their round trips,
  rebuilding the counters from the articles on disk, locking, finding an
  article by message id, and posting (`Groups`, `GroupHeaders`,
  `GroupObject`).
- The NNTP session (`NntpWire`, `PostWire`, `NntpReplies`, `NntpTranscript`,
  `NntpServer`):
  - reading command lines and splitting them into words;
  - the AUTHINFO exchange;
  - GROUP, NEXT, ARTICLE/HEAD/BODY/STAT, XOVER, LISTGROUP, LIST, NEWGROUPS,
    POST and DATE;
  - the mail copy of a posting (`MailCopy`).
- The mail-to-news gateway and the command-line flags of the program
  (`Newsd`).

The C library routines the code depends on are modelled in `CLib`:
`isspace`, `strcasecmp`, `strtoul`/`strtol`/`atoi` with saturation, `sscanf`
conversions, the chunks `fgets` returns, and the C-string view of a buffer.
`Subs` holds the three helpers of `Subs.C`.

The file system is the class `Fs.FileSystem`, with these fields:

- `files`: a map from paths to contents;
- `dirs`: a map from directory paths to creation times;
- `denied`: paths whose creation fails.

Directory listings are derived from the keys of the maps. The session's
connection is a byte string read from an index, plus the list of writes the
server makes. Everything, the file system included, is passed in as
parameters:

- the clock (the date text and the split DATE fields);
- the spam filter's verdict;
- the remote address;
- the list of the spool's group names;
- the host name;
- the build-time constants (version, spool and configuration paths, sendmail
  path).

Mail handed to sendmail is appended to a list of messages.

Objects whose fields the source updates in place are classes:

- `Configuration.Configuration`
- `Fs.FileSystem`
- `ArticleObject.Article`
- `GroupObject.Group`
- `NntpServer.Server`

An operation's contract ties its new state and its output to its old
state: the spool files it reads, the files it writes (and that no other
file changes) and the replies it sends. The session's routing methods are
the exception; "## Left out" names them.
The pure parts (parsers, formats, header rewriting) are functions, and the
lemmas about them state round trips, uniqueness and order.

## Model

| member | source | states |
|---|---|---|
| CLib.EqualsIgnoreCaseLower | Configuration.C:231 | strcasecmp equality holds exactly when the texts agree once lower-cased |
| CLib.CStr | Group.C:421-431 | the C-string view of a buffer is its longest NUL-free prefix, ended by the first NUL when one exists |
| CLib.ParseNumber | Group.C:155 | the numeral strtoul and sscanf find: non-empty digits, stopping before the first non-digit |
| CLib.ULongOf | Group.C:440 | strtoul's value never exceeds ULONG_MAX and equals the magnitude when that fits |
| CLib.LongOf | Configuration.C:286 | strtol saturates into LONG_MIN..LONG_MAX and keeps the sign |
| CLib.Int32Of | Article.C:105 | the int that atoi's long is cast to lies in 32 bits and is unchanged when it fits |
| CLib.UInt32Of | Configuration.H:115 | the unsigned conversion of MaxClients and Timeout lies in 32 bits and is unchanged when it fits |
| CLib.StrToUL | Group.C:170 | strtoul stops inside the text and returns at most ULONG_MAX |
| CLib.ScanWord | Group.C:286 | a %255s conversion gives a non-empty word of at most the width, without white space |
| CLib.Words | Server.C:254 | sscanf "%s%s%s" gives at most three words, each non-empty and without white space |
| CLib.MoreWords | Server.C:254 | white space and a word put that word in front of the words after it |
| CLib.LineLength | Group.C:225 | fgets stops after the first newline or at the end of the data |
| CLib.FgetsChunks | Configuration.C:197 | every chunk fgets returns is non-empty and holds at most size - 1 characters |
| CLib.ChunksConcat | Configuration.C:197 | the chunks fgets returns, put back together, are the whole file |
| CLib.ChunkNewlines | Group.C:225 | a chunk holds a newline only as its last character |
| CLib.LinesChunks | Group.C:225 | a file made of short lines comes back from fgets one line per chunk |
| CLib.LinesChunksThen | Article.C:154 | short lines at the front of a file come back one per chunk, before the chunks of the rest |
| CLib.ParseDigitsAfterSpace | Group.C:234 | after white space, scanf reads exactly the digits that follow, up to the first non-digit |
| Subs.Ultos | Subs.C:23-28 | ultos gives a non-empty digit string whose decimal value is the number, without a leading zero |
| Subs.UltosLength64 | Subs.C:23-28 | an unsigned long takes at most twenty digits |
| Subs.UltosInjective | Subs.C:23-28 | two numbers with the same text are the same number |
| Subs.ScanULongUltos | Group.C:234 | sscanf %lu reads ultos's text back as the number |
| Subs.StrToULUltos | Group.C:440 | strtoul reads ultos's text back as the number and stops at its end |
| Subs.BeforeCrlf | Subs.C:31-35 | the text before the first CR or LF holds neither, and is followed by one when it is shorter |
| Subs.BeforeCrlfIdempotent | Subs.C:31-35 | truncating twice is truncating once, and a text without CR and LF is left as it is |
| Subs.TruncateCrlf | Subs.C:31-35 | the buffer gets a NUL over its first CR, LF or NUL and nothing else changes; its C string becomes the text before the first CR or LF |
| Subs.TruncatedView | Subs.C:33-34 | storing the NUL at that index cuts the C string there |
| Subs.Replaced | Subs.C:38-42 | every occurrence of from becomes to, and every other character stays |
| Subs.ReplaceString | Subs.C:38-42 | the loop rewrites the buffer into ReplacedBuffer of its old contents |
| Subs.ReplacedHasNoFrom | Subs.C:38-42 | when from and to differ, no from is left |
| Subs.ReplaceStringIdempotent | Subs.C:38-42 | a second ReplaceString changes nothing, even when to is NUL and ends the string early |
| ConfigSyntax.Before | Configuration.C:203-204 | the text before the first '#' holds no '#' and is followed by one when it is shorter |
| ConfigSyntax.TrimEnd | Configuration.C:207-208 | the trimmed text is a prefix that does not end in white space, and only white space was dropped |
| ConfigSyntax.DirectiveParts | Configuration.C:203-228 | a directive's name is a non-empty word without '#' or NUL, and its value is non-empty and trimmed at both ends |
| ConfigSyntax.SplitTrimmedOf | Configuration.C:215-221 | white space, a name, white space and a value split into exactly that name and value |
| ConfigSyntax.DirectiveOfLine | Configuration.C:203-228 | any line made of a name and a value, with white space around them and an optional comment, gives back that name and value |
| ConfigSyntax.EntryLine | Configuration.C:203-228 | the line "name value" and a newline is a line of the file holding that directive |
| ConfigSyntax.CommentCut | Configuration.C:203-204 | a comment after clean text is exactly what is cut off |
| ConfigSyntax.StripTrailing | Configuration.C:207-208 | backing up over white space leaves TrimEnd of the line |
| ConfigSyntax.SplitDirective | Configuration.C:202-228 | the character-by-character walk over one line gives DirectiveOf that line |
| Configuration.Switch | Configuration.C:250-251 | an on/off value gives only 0 or 1 |
| Configuration.SwitchValues | Configuration.C:250-251 | on and yes give 1, off and no give 0, in any case, and no other value does |
| Configuration.Count | Configuration.C:286-291 | an accepted count fits 32 bits |
| Configuration.CountAccepts | Configuration.C:286-291 | every decimal number that fits an unsigned int is accepted as itself |
| Configuration.CountRefusesNegative | Configuration.C:288 | a negative number is refused |
| Configuration.CountRefusesTrailing | Configuration.C:288 | characters after the number make the value bad |
| Configuration.ApplyIgnoresNameCase | Configuration.C:231 | directive names are compared without regard to case |
| Configuration.TimeoutDirective | Configuration.C:318-326 | Timeout sets the timeout exactly when the count is good, and otherwise changes nothing |
| Configuration.MaxClientsDirective | Configuration.C:284-292 | MaxClients sets the client limit exactly when the count is good, and otherwise changes nothing |
| Configuration.AuthCredentialSwitchesAuth | Configuration.C:333-342 | Auth.User and Auth.Pass store the value, and authentication is needed afterwards exactly when the value is not "-" |
| Configuration.LoadedLines | Configuration.C:197-365 | a file of short lines applies each line's directive in order |
| Configuration.CommentLineIgnored | Configuration.C:210-212 | a line of white space and a comment changes nothing |
| Configuration.SingleLineLoaded | Configuration.C:197-365 | a file of one short line is that line applied |
| Configuration.LoadedTimeout | Configuration.C:318-326 | the file "Timeout N" sets the timeout to N and nothing else |
| Configuration.NoAuthAllowsAll | Configuration.H:153-168 | with the NOAUTH flag every operation is allowed and no authentication is needed |
| Configuration.ProtectedOperation | Configuration.H:159-168 | when authentication is needed, a protected operation is allowed exactly when all its bits are granted |
| Configuration.LoginGrantsProtected | Configuration.C:798-799 | after a good login, reading and posting are allowed whatever the protections |
| Configuration.FailedLoginDeniesProtected | Configuration.C:804 | after a failed login, an operation is allowed exactly when it is unprotected |
| Configuration.Configuration.constructor | Configuration.C:30-69 | the defaults: no lookups, no recursion into message directories, no modulus dirs, log to stderr at info, no client limit, the host name, sendmail -t, no spam filter, the built-in spool, a 12-hour timeout, user news, no authentication |
| Configuration.Configuration.OldLogFilename | Configuration.C:557-561 | the rotated log's name is the log's name followed by ".O" |
| Configuration.Configuration.AuthLogin | Configuration.C:788-807 | matching user and password give 1, and the flags become the protections; anything else sleeps Auth.Sleep seconds when that is positive, gives -1 and sets the flags to FAIL |
| Configuration.Configuration.SetMaxClients | Configuration.H:115 | the long value is cut to 32 bits |
| Configuration.Configuration.SetTimeout | Configuration.H:140 | the long value is cut to 32 bits |
| Configuration.Configuration.ApplyDirective | Configuration.C:230-364 | one directive changes the settings as Apply says |
| Configuration.Configuration.ApplyKeyword | Configuration.C:231-259 | the keyword directives (HostnameLookups, NoRecurseMsgDir, MsgModDirs, LogLevel, Auth.Protect) take one of a few keywords, and a bad value changes nothing |
| Configuration.Configuration.ApplyNumber | Configuration.C:284-358 | MaxClients and Timeout take a strtol count and Auth.Sleep a %u value; a bad number changes nothing |
| Configuration.Configuration.ApplyCredential | Configuration.C:333-342 | Auth.User and Auth.Pass store the value and switch authentication on or off |
| Configuration.Configuration.ApplyText | Configuration.C:260-330 | the text directives take the value as it is written |
| Configuration.Configuration.Load | Configuration.C:177-369 | the new settings are Loaded of the old ones and the file; a missing file changes nothing |
| Fs.FileSystem.Read | Article.C:135-142 | a read succeeds exactly when the path exists and gives a regular file's contents |
| Fs.FileSystem.WriteFile | Group.C:62-71 | fopen "w" succeeds exactly off directories and denied paths, and the file then holds the data |
| Fs.FileSystem.CreateExclusive | Group.C:752-764 | open with O_CREAT and O_EXCL fails with EEXIST exactly on an existing path, and otherwise with an error exactly on a denied one; on success an empty file is created |
| Fs.FileSystem.MakeDir | Group.C:721 | mkdir succeeds exactly on a new path that is not denied, and records the creation time |
| Fs.FileSystem.Append | newsd.C:138-149 | appended bytes go at the end of the file |
| Fs.FileSystem.Entries | Group.C:113-115 | readdir lists names without slashes, each naming an existing file or directory inside the directory |
| Articles.NumberPathInjective | Article.C:69-81 | different article numbers have different paths in the same group directory |
| Articles.ArticlePathParts | Article.C:69-81 | an article's path is the spool as configured, "/", the group with its dots made slashes, and it ends with "/" and the number |
| Articles.SplitKeyValue | Article.C:43-60 | a line without a colon is malformed and gives an empty key; otherwise the key runs to the first colon, included, and the value does not start with a blank |
| Articles.SplitKeyValueOf | Article.C:43-60 | a key, a colon, blanks and a value split into exactly that key and value |
| Articles.Capped | Article.C:164-165 | a value over the limit is cut to FIELD_MAX - 1 characters, and a shorter one is kept |
| Articles.FieldTextSplits | Article.C:43-60 | a well-formed field written as a header line splits back into that field |
| Articles.UnfoldStep | Article.C:176-180 | a new field line completes the pending field and becomes the pending one |
| Articles.UnfoldEnd | Article.C:169-173 | the empty line ends the header and completes the pending field, if there is one |
| Articles.UnfoldLines | Article.C:154-182 | header lines followed by the empty line complete the pending field and then every field, in order |
| Articles.UnfoldUnterminated | Article.C:154-182 | without an empty line after it, the last header field is never completed |
| Articles.UnfoldHeader | Article.C:154-182 | a header written one field per line and ended by an empty line unfolds back into exactly those fields, whatever follows |
| Articles.UnfoldWithoutBlankLine | Article.C:154-182 | a file that is all header loses its last field |
| Articles.UnfoldContinuation | Article.C:161-166 | a continuation line adds its text, less the leading blank, to the value before it |
| Articles.SlotNamesDistinct | Article.C:86-109 | a key that matches one kept header name matches no other |
| Articles.ParseHeaderSlot | Article.C:86-109 | a field sets exactly the slot its key names, case aside, and Lines: goes through atoi |
| Articles.RecordText | Article.C:86-109 | each kept value is that of the last field with its name, or what it was before when there is none |
| Articles.RecordLines | Article.C:104-105 | the line count is atoi of the last Lines: field, or what it was before |
| Articles.LoadTextOfLine | Article.C:154-156 | a short stored line is read as the line without its newline |
| Articles.LoadTextsOfHeader | Article.C:154-156 | from a stored header, Load reads the header lines, then the empty line, then the body's texts |
| Articles.ArticleHeadersOfFile | Article.C:112-190 | loading an article file keeps exactly the values its header fields set, whatever body follows |
| Articles.UnstuffStuffed | Article.C:266-271 | taking off the dot that stuffing added gives the line back |
| Articles.WireTextNotTerminator | Article.C:249-271 | no sent line is the lone dot that ends the reply |
| Articles.WireTextBounded | Article.C:250-251 | a sent line is at most LINE_LEN - 1 characters long |
| Articles.WireTextOfLine | Article.C:249-271 | a stored line arrives, once unstuffed, as the line with CR LF; it starts with a dot exactly when the line does |
| Articles.SendRange | Article.C:235-274 | the lines sent form a range that ends at or before the last line |
| Articles.ArticleIsHeadThenBody | Article.C:262-264 | ARTICLE sends what HEAD sends, then the separator line when there is one, then what BODY sends |
| Articles.SentOfFile | Article.C:210-287 | for header lines, an empty line and a body, HEAD sends exactly the header lines and BODY exactly the body's lines |
| Articles.Sanitized | Article.C:293-298 | the sanitized value has the same length and holds no tab |
| Articles.ColumnValue | Article.C:304-333 | an overview field holds no tab |
| Articles.OverviewFields | Article.C:301-335 | split at its tabs, the overview line is the number, then one field per name the server fills, in order |
| ArticleObject.LoadStoredArticle | Article.C:112-190 | after loading a stored article, its Message-ID and From are the values of the last such fields, and it is valid exactly when both are non-empty |
| ArticleObject.ReadContinuation | Article.C:161-166 | a continuation line adds its text to the pending value |
| ArticleObject.ReadEnd | Article.C:169-173 | the empty line stores the pending field and ends the loop |
| ArticleObject.ReadField | Article.C:176-180 | a field line stores the pending field and becomes the pending one |
| ArticleObject.OverviewColumn | Article.C:307-332 | one overview name adds a tab and its field, or nothing for a name the server does not fill |
| ArticleObject.SendsAt | Article.C:262-264 | a line is written exactly when it lies in the range SendRange picks |
| ArticleObject.SendLines | Article.C:235-274 | the mode loop writes exactly the lines of the range SendRange picks |
| ArticleObject.Article.constructor | Article.H:68-82 | a fresh article is empty and invalid |
| ArticleObject.Article.Restore | Article.H:48-62 | every field is taken from the saved article |
| ArticleObject.Article.ParseHeaderField | Article.C:86-109 | the field goes through ParseHeader; the result is 0 exactly when the key names a kept header, and -1 otherwise |
| ArticleObject.Article.ReadHeader | Article.C:150-182 | the kept values are those of the unfolded fields of the texts Load reads, in order |
| ArticleObject.Article.Load | Article.C:112-190 | the new state is ArticleLoaded of the group, the number and what the article's file holds; the result is 0 exactly when the article is valid |
| ArticleObject.Article.LoadFromGroup | Article.C:195-201 | with no group, the result is -1 and "No group selected"; otherwise it is Load from the article's own group |
| ArticleObject.Article.SendArticle | Article.C:210-277 | a missing file gives -1 and the "no longer exists" message; otherwise the result is 0 and the bytes written are Sent of the file |
| ArticleObject.Article.SendHead | Article.C:279-282 | the header lines only |
| ArticleObject.Article.SendBody | Article.C:284-287 | the body lines only |
| ArticleObject.Article.Overview | Article.C:301-335 | the reply is the overview line of the article's number and header values |
| Groups.GroupDir | Group.C:35-48 | the group directory is the spool directory, a slash and the group name, with every '.' of the whole path turned into '/' |
| Groups.GroupDirHoldsArticles | Group.C:35-48 | when the spool path has no dot, an article file named under the group directory is the same path Article::GetArticlePath names |
| Groups.DottedSpoolMoves | Group.C:35-48 | when the spool path has a dot, the group directory differs from the spool path followed by the group name with dots turned into slashes |
| Groups.StartLine | Group.C:234-235 | a "start" line of spaces and at most ULONG_MAX in digits sets the first article number and nothing else |
| Groups.EndLine | Group.C:236-237 | an "end" line sets the last article number and nothing else |
| Groups.TotalLine | Group.C:238-239 | a "total" line sets the article count and nothing else |
| Groups.InfoCommentSkipped | Group.C:231-232 | a line starting with '#' changes no counter |
| Groups.InfoChunksOfText | Group.C:53-91 | fgets reads the saved .info text back as its lines, one per counter |
| Groups.InfoRoundTrip | Group.C:53-91 | reading back the .info text SaveInfo writes restores all three counters, whatever they were before |
| Groups.SavedCountersRead | Group.C:225-240 | three saved counter lines of digits within ULONG_MAX yield exactly their three values |
| Groups.ConfRead | Group.C:250-318 | after reading a .config file the ccpost setting is never empty: "-" when no ccpost line was found |
| Groups.DescriptionLine | Group.C:281-285 | a "description" line sets the description to the rest of the line and nothing else |
| Groups.CreatorLine | Group.C:286-287 | a "creator" line sets the creator and nothing else |
| Groups.PostokLine | Group.C:288-289 | a "postok" line with a number below 2^31 sets the post flag to it and nothing else |
| Groups.PostlimitLine | Group.C:290-291 | a "postlimit" line with a number below 2^31 sets the article size limit and nothing else |
| Groups.CcpostLine | Group.C:292-303 | a "ccpost" line joins its word to the addresses seen so far |
| Groups.ReplytoLine | Group.C:304-305 | a "replyto" line sets the reply-to address and nothing else |
| Groups.VoidemailLine | Group.C:306-307 | a "voidemail" line sets the void address and nothing else |
| Groups.ConfChunksOfText | Group.C:324-376 | fgets reads the saved .config text back as its lines, one per setting |
| Groups.SavedSettingsRead | Group.C:250-318 | the saved lines, read from a state with no ccpost, yield exactly the saved settings |
| Groups.ConfRoundTrip | Group.C:250-376 | reading back the .config text SaveConfig writes restores every setting, for any setting values that can be written as single lines |
| Groups.CcpostAccumulates | Group.C:292-303 | two ccpost lines join with a comma unless the first is "-" or already ends in a comma |
| Groups.CcpostPairRead | Group.C:292-303 | reading two ccpost lines gives the join of their words |
| Groups.NoCcpostLine | Group.C:313 | a .config without a ccpost line leaves ccpost set to "-" |
| Groups.TallyAdds | Group.C:154-156 | counting one more article keeps the counters describing the article set: count, lowest and highest number |
| Groups.TallyFlat | Group.C:163-174 | scanning a flat group directory gives the count and bounds of its files whose names start with a digit |
| Groups.TallyModDir | Group.C:130-160 | scanning one modulus directory adds its digit-named files to the counted set |
| Groups.ModNumbersAdd | Group.C:123-162 | each further digit-named modulus directory adds exactly the articles in it |
| Groups.TallyModulus | Group.C:123-162 | scanning all modulus directories gives the count and bounds of every article file in them |
| Groups.ScanArticles | Group.C:97-184 | an unreadable directory gives zero counters; otherwise the counters describe the group's articles, flat or in modulus directories |
| GroupHeaders.SplitClean | Group.C:950-1029 | no line ParseArticle files holds a CR, a LF or a NUL |
| GroupHeaders.ParsedClean | Group.C:950-1029 | every header and body line ParseArticle returns is free of CR, LF and NUL |
| GroupHeaders.StepCr | Group.C:987-1017 | a CR is dropped wherever it appears |
| GroupHeaders.StepLfLf | Group.C:987-1017 | in the header, two line feeds in a row file the pending line and end the header |
| GroupHeaders.StepLfCrLf | Group.C:987-1017 | in the header, a line feed followed by CR LF files the pending line and ends the header |
| GroupHeaders.SplitHead | Group.C:987-1017 | header lines, each with its line end, then an empty line, are filed into the header in order and the header ends |
| GroupHeaders.SplitBody | Group.C:987-1017 | body lines, each with its line end, are filed into the body in order |
| GroupHeaders.ParseMessage | Group.C:950-1029 | a message of non-empty clean header lines, an empty line and clean body lines, with LF or CR LF line ends, parses back into exactly those lines |
| GroupHeaders.PathRewrittenHosts | Group.C:1032-1063 | a rewritten "Path:" header is still one and lists the host before the hosts it listed |
| GroupHeaders.PathUpdatedHeaders | Group.C:1032-1063 | every "Path:" header now lists the host first, every other header is unchanged, and a "Path:" header listing only the host is appended when there was none |
| GroupHeaders.PathUpdatedTwice | Group.C:1032-1063 | after two servers in turn, the later host comes first, then the earlier, then the old hosts |
| GroupHeaders.StrippedHeaders | Group.C:770-780 | Post keeps exactly the headers it does not regenerate, in their original order |
| GroupHeaders.AddedHeaderKeys | Group.C:783-806 | among the added headers only the server's Message-ID is a "Message-ID: " header and only its Lines is a "Lines: " header, in any letter case |
| GroupHeaders.PostedHeaderIds | Group.C:770-806 | the posted header holds exactly one "Message-ID: " header and one "Lines: " header, both the server's |
| GroupHeaders.FirstLed | Group.C:563-573 | the index found is the first header at or after the start that the overview entry leads, or the end |
| GroupHeaders.ReorderedSplits | Group.C:557-581 | ReorderHeader's result is the moved headers followed by the rest |
| GroupHeaders.ReorderedPermutes | Group.C:557-581 | ReorderHeader loses and duplicates no header |
| GroupHeaders.KeptInOrder | Group.C:575-577 | the headers not moved keep their original order |
| GroupHeaders.MovedCount | Group.C:561-574 | at most one header moves per overview entry |
| GroupHeaders.MovedLed | Group.C:561-574 | each header moved up starts with some overview entry |
| GroupHeaders.ReorderedNothingLed | Group.C:557-581 | when no overview entry leads any header, the order is unchanged |
| GroupHeaders.ReorderedFirst | Group.C:561-574 | the first header led by the first overview entry comes first |
| GroupHeaders.ArticleFileParses | Group.C:811-825 | the article file Post writes parses back into the header and body written |
| GroupHeaders.FastMessageId | Group.C:438-441 | a message id of the server's own form goes by the fast path straight to its article number |
| GroupHeaders.StopIndex | Group.C:457-460 | the scan of a file stops at the first chunk that starts a blank line or a "Message-Id:" header |
| GroupHeaders.IdMatchesFirstLine | Group.C:452-480 | a file whose first line is "Message-ID: " and the id matches that id |
| GroupHeaders.LastLineMatches | Group.C:452-480 | a file with neither a blank line nor a "Message-Id:" header is compared on its last line, so a last "References: " line holding the id matches |
| GroupObject.WrittenConf | Group.C:324-376 | the settings SaveConfig writes keep the post flag and size limit, and are the settings themselves whenever they can be written as single lines |
| GroupObject.SavedConfigReads | Group.C:250-376 | reading back what SaveConfig wrote restores the settings |
| GroupObject.ReadCounters | Group.C:225-240 | the fgets loop over the .info file leaves the counters its lines describe |
| GroupObject.ReadSettings | Group.C:272-308 | the fgets loop over the .config file leaves the settings its lines describe |
| GroupObject.MatchFile | Group.C:455-476 | the scan of one article file decides a match exactly as the file's contents, its path and the id determine |
| GroupObject.StripHeaders | Group.C:770-780 | the loop removes exactly the regenerated headers and keeps the rest in order |
| GroupObject.PostGroupFirst | Group.C:631-644 | the group posted to is the first word of the first "Newsgroups:" header, and there is one exactly when some header names a group |
| GroupObject.FindPostGroup | Group.C:631-644 | the loop finds a group exactly when some header names one, and it is the first |
| GroupObject.ScanForId | Group.C:452-480 | a non-zero result is the lowest article number in range whose file holds the id; zero means none does, or only article 0 |
| GroupObject.TryArticle | Group.C:711-764 | creating one article file either finds it taken, or creates it empty, or fails with an error other than "exists", and changes no other file |
| GroupObject.CreateArticle | Group.C:705-766 | the number used is the first one from the start that is not taken; every number skipped is taken; on success exactly that file is created |
| GroupObject.Admitting | Group.C:654-700 | a posting is admitted exactly when the group is valid, posting is allowed or forced, and the spam filter is unset or passes it |
| GroupObject.Group.constructor | Group.H:87-100 | zero counters, default settings, empty name, no lock |
| GroupObject.Group.Copy | Group.H:105-108 | the copy has the original's counters, settings and name, with a fresh directory, message and lock |
| GroupObject.Group.Assign | Group.H:110-114 | assignment copies counters, settings and name and keeps the directory, message and lock |
| GroupObject.Group.SetStart | Group.H:134 | sets the first article number only |
| GroupObject.Group.SetEnd | Group.H:135 | sets the last article number only |
| GroupObject.Group.SetTotal | Group.H:136 | sets the article count only |
| GroupObject.Group.SetName | Group.H:137-138 | sets the name only |
| GroupObject.Group.Dirname | Group.C:35-48 | the kept directory is the group directory of the current name |
| GroupObject.Group.WriteLock | Group.C:521-544 | takes the exclusive lock of the group directory |
| GroupObject.Group.ReadLock | Group.C:495-518 | takes the shared lock of the group directory |
| GroupObject.Group.Unlock | Group.C:547-551 | releases the lock |
| GroupObject.Group.IsValidGroup | Group.C:1068-1076 | the group is valid exactly when its .config file exists |
| GroupObject.Group.SaveInfo | Group.C:53-91 | on success the .info file holds the counters' text; failure returns -1 with the path and the error, and no file changes |
| GroupObject.Group.BuildInfo | Group.C:97-184 | the counters describe the articles on disk, then they are saved as SaveInfo does |
| GroupObject.Group.LoadInfo | Group.C:190-245 | an existing .info is read; a missing one with no .config is "invalid group"; a missing one with a .config is rebuilt from the articles and saved |
| GroupObject.Group.LoadConfig | Group.C:250-318 | an existing .config is read into the settings; a missing one returns -1 with the path and "No such file or directory" and changes nothing |
| GroupObject.Group.SaveConfig | Group.C:324-376 | on success the .config file holds the settings' text; failure returns -1 with the path and the error |
| GroupObject.Group.Load | Group.C:382-418 | a name too long is refused unchanged; a missing directory of the previous name is refused with ENOENT; otherwise the name is taken and the counters and settings are loaded, and the result is 0 exactly when the group is valid, which is exactly when the name is shorter than GROUP_MAX, the previous name's directory and the new group's .config exist, and its .info exists or can be written |
| GroupObject.Group.LoadFiles | Group.C:403-414 | the .info and then the .config are loaded; the result is 0 exactly when the .config exists and the .info exists or can be written |
| GroupObject.LoadsKept | Group.C:190-245 | writing the .info of a group that loads changes for no group whether it loads |
| GroupObject.Group.ParseArticle | Group.C:950-1029 | always succeeds, filing the message's lines as the parse walk does |
| GroupObject.Group.UpdatePath | Group.C:1032-1063 | the header becomes PathUpdated with the server's name |
| GroupObject.Group.ReorderHeader | Group.C:557-581 | the header becomes Reordered by the overview entries |
| GroupObject.Group.FindArticleByMessageID | Group.C:434-492 | an id of the server's own form gives its number at once; otherwise the number is the lowest in the group's range whose file holds the id, or -1 with "Message-ID not found" |
| GroupObject.Group.Admit | Group.C:650-700 | the group is reloaded under the lock, valid exactly when it loads on the spool, with the counters and settings read from it; the posting is admitted exactly when Admitting says so, else the refusal message is set |
| GroupObject.Group.PostedHeader | Group.C:770-808 | the posted header is the stripped header plus the server's added headers, reordered |
| GroupObject.Group.WriteArticle | Group.C:705-825 | on success a fresh article file holds the posted header and the body; on failure nothing is written; whether it succeeds or not, the only directories created are modulus directories of the group, stamped with the posting's time, and no existing directory changes (DirsGrown) |
| GroupObject.Group.Store | Group.C:705-835 | a store that cannot create the article file writes nothing; on success the new article is the one after the last, every number between is taken, the counters count it, and the files are the old ones plus the article file and, where it can be written, the .info holding the new counters; whether it succeeds or not, the only directories created are modulus directories of the group, stamped with the posting's time, and no existing directory changes (DirsGrown) |
| GroupObject.StoredArticle | Group.C:705-835 | after a store the article file holds the article's text, and no path but it and the group's .info changed |
| GroupObject.StoredBesideInfo | Group.C:651-835 | a store over a spool whose .info the admitting load rebuilt is Stored against the spool before that load |
| GroupObject.Group.StoreAdmitted | Group.C:705-835 | the store after Admit, stated against the spool before Admit: a failed store writes nothing more, a stored article leaves the files Stored says; whether it succeeds or not, the only directories created are modulus directories of the group, stamped with the posting's time, and no existing directory changes (DirsGrown) |
| GroupObject.Group.Submit | Group.C:647-835 | the Submitted outcome: valid exactly when the group loads on the spool, with the counters and settings read from it; a refusal (Admitting's reason, or the creation error of an admitted posting) writes at most the group's rebuilt .info and creates no directory on a refusal before the store; an admitted posting is numbered after the counters read, every number skipped is taken on disk, and the spool becomes Stored: the article file with the reordered header and the body, and the .info with the advanced counters where it can be written; an admitted posting creates no directory but modulus directories of the group, stamped with the posting's time, and changes no existing one, and a refused posting changes no directory |
| GroupObject.FilingOf | Group.C:624-839 | Submitted for the group the Newsgroups line names is the Filing of the spool: whether it loads and its settings are read from the spool itself |
| GroupObject.Group.PostTo | Group.C:645-839 | the group named is taken, locked, submitted and unlocked; the outcome is the Filing of the spool; an admitted posting creates no directory but modulus directories of the group, stamped with the posting's time, and changes no existing one, and a refused posting changes no directory |
| GroupObject.Group.Post | Group.C:624-839 | the outcome is the Filing of the spool: without a "Newsgroups:" header the posting is refused with its message and nothing changes; otherwise the first group named is loaded, a refusal gives Admitting's reason and writes at most its rebuilt .info, an admitted posting fails with the creation error or is filed at the first free number above the End read, and no file but the article and the .info changes; an admitted posting creates no directory but modulus directories of the group, stamped with the posting's time, and changes no existing one, and a refused posting changes no directory |
| NntpWire.FrameOfLf | Server.C:234-249 | a line ended by LF is read as that line, and reading goes on after the LF |
| NntpWire.FrameOfCrlf | Server.C:234-249 | a line ended by CR and one more byte is read as that line, and both bytes are consumed |
| NntpWire.FrameOfLongLine | Server.C:234-249 | a line longer than LINE_LEN - 2 bytes is cut at that length, and the byte after the cut is consumed |
| NntpWire.FrameOfUnterminated | Server.C:234-249 | input that ends before a line end or the length limit closes the session |
| NntpWire.ReadCommand | Server.C:234-249 | the read loop finds a line exactly as ReadFrame describes; the line holds no CR or LF and fits the buffer |
| NntpWire.Tokenize | Server.C:253-255 | a command has a non-empty verb and words without white space, and there is no second argument without a first |
| NntpWire.BlankLineIgnored | Server.C:253-255 | a line of white space only is no command |
| NntpWire.TokenizeVerb | Server.C:253-255 | a single word with trailing white space is a command with no arguments |
| NntpWire.TokenizeWords | Server.C:253-255 | three words separated by single spaces are the verb and the two arguments, whatever follows a space |
| NntpWire.Clamped | Server.C:562-567 | the sanitized range is ordered and lies inside the group's range when that is ordered, and a range already inside is left alone |
| NntpWire.XoverPair | Server.C:552-553 | "a-b" asks for a to b |
| NntpWire.XoverBare | Server.C:556-557 | a bare number a asks for a to the group's last article, because "%lu-" matches without the dash |
| NntpWire.XoverDigitsPair | Server.C:552-553 | two digit strings around a dash ask for the range of their values, saturated as strtoul does |
| NntpWire.XoverOpen | Server.C:554-555 | "a-" asks for a to the group's last article |
| NntpWire.XoverJunk | Server.C:550-558 | an argument that is not a number leaves the range at the first article alone |
| PostWire.CollectPost | Server.C:874-907 | the collect loop yields the message, the too-long flag and the read position that Collect describes |
| PostWire.CollectShape | Server.C:874-907 | the decoding state and line count do not depend on the size limit |
| PostWire.LimitKeepsEnd | Server.C:876-881 | a posting over the limit is still read to its terminating dot |
| PostWire.OverLimitDrops | Server.C:901-902 | once over the limit, no further byte joins the message, and the too-long flag stays set |
| PostWire.DecodeStuffedLine | Server.C:880-895 | a dot-stuffed line ended by CR LF is stored as the line and a LF |
| PostWire.DecodeTerminator | Server.C:883-884 | a dot alone on a line ends the posting |
| PostWire.DecodePosting | Server.C:874-907 | a first line and stuffed lines followed by the terminator decode to the lines, each ended by LF, and decoding stops after the dot |
| PostWire.CollectUnlimited | Server.C:874-907 | with no limit the collected message is the decoding of the input from the start position |
| PostWire.PostRoundTrip | Server.C:874-907 | with no limit, a first line and dot-stuffed lines followed by the terminator are collected back as those lines, each ended by LF, and reading stops after the dot |
| MailCopy.SelectedOwner | Server.C:964-997 | a header line is copied exactly when it is a preserved header or continues one |
| MailCopy.PreserveFields | Server.C:964-997 | the loop collects exactly the selected header lines, each with a LF |
| MailCopy.BreakLine | Server.C:85-107 | the output is prefix, piece and trail for each piece of the line between break characters |
| MailCopy.PiecesShape | Server.C:85-107 | each piece is non-empty and holds no break character |
| MailCopy.PiecesWord | Server.C:85-107 | a line without break characters is one piece |
| MailCopy.PiecesBreak | Server.C:85-107 | a break character splits the pieces into those before it and those after it |
| NntpReplies.Fit | Server.C:619-620 | a reply formatted into the LINE_LEN buffer is the longest prefix that fits, and a short reply is untouched |
| NntpReplies.GroupSelectedWhole | Server.C:619-622 | for numbers within ULONG_MAX and a group name below GROUP_MAX, the 211 reply is never cut |
| NntpReplies.RetrievedNumber | Server.C:806-845 | the 220 to 223 replies start with their code and the article number, which reads back from the reply |
| NntpReplies.NameStaysInSpool | Server.C:42-57 | a name ValidGroup accepts has no slash, no "..", and only letters, digits and dots |
| NntpReplies.SixDigitsRead | Server.C:669-671 | a six-digit NEWGROUPS argument always scans as three two-digit fields |
| NntpReplies.TwoDigits | Server.C:1041-1048 | a field below 100 is written as exactly two digits with its value |
| NntpReplies.ReportText | Server.C:213 | every formatted reply fits the reply buffer |
| NntpTranscript.OverviewsAt | Server.C:572-584 | the overview listing of a range is the listing before an article, that article's line, and the listing after it |
| NntpTranscript.OverviewsNone | Server.C:576-580 | articles that fail to load give no lines |
| NntpTranscript.NumberLinesAt | Server.C:512-513 | the LISTGROUP listing holds every number of the range, in order |
| NntpTranscript.LeadingDigitScans | Server.C:772-775 | an argument that starts with a digit always scans as a number, so "501 bad article number" cannot be sent |
| NntpServer.Replies | Server.C:470-474 | one reply per line, in order |
| NntpServer.ListGroupReadsOldGroup | Server.C:509 | after selecting a group other than the one the current article belongs to, LISTGROUP loads the given number from the article's previous group |
| NntpServer.ListGroupReadsSelectedGroup | Server.C:484-516 | loading from the selected group gives that group's article with the group's first number |
| NntpServer.ArticlePathLead | Article.C:69-81 | article n of a group lies under the spool directory at the group name's first character |
| NntpServer.ListGroupOldGroupExample | Server.C:509 | with the current article from alt.old, LISTGROUP comp.new as written loads article n of alt.old, whose path is not that of article n of comp.new |
| NntpServer.ListGroupSelectedGroupExample | Server.C:484-516 | corrected, the same LISTGROUP loads article n of comp.new, whose path is not that of article n of alt.old |
| NntpServer.Server.constructor | Server.H:29-74 | a new session has an empty group and article, no output, no mail and no authentication in progress |
| NntpServer.Server.Send | Server.C:33-39 | the line is written, to be sent with CR LF |
| NntpServer.Server.SendReport | Server.C:33-39 | the formatted reply is written |
| NntpServer.Server.IsAllowed | Server.C:195-203 | the operation is allowed exactly as the configuration says, and a refusal sends "480 Authentication required" |
| NntpServer.Server.ValidGroup | Server.C:42-68 | 0 exactly when the name has no "..", only letters, digits and dots, and names an existing spool entry; otherwise -1 with the reason |
| NntpServer.Server.NewGroup | Server.C:71-80 | a name ValidGroup refuses keeps its message and changes nothing; otherwise the result is 0 exactly when the group loads on the spool, and then the group is valid under that name and no file but its .info changes; a failed load writes nothing |
| NntpServer.Server.AuthContinue | Server.C:261-279 | the line after AUTHINFO SIMPLE must hold a user and a password; they are checked against the configured credentials, setting the granted rights or the failure flag |
| NntpServer.Server.Authinfo | Server.C:281-328 | the replies of each AUTHINFO form, whether or not authentication is needed; a PASS after a USER checks both against the configuration and sets the rights or the failure flag |
| NntpServer.Server.Mode | Server.C:342-359 | MODE STREAM is refused, MODE READER answers ready, anything else gets "500 What?" |
| NntpServer.Server.SelectGroup | Server.C:589-626 | GROUP without a name is a syntax error; a group is selected exactly when it loads on the spool, its first article loaded, and 211 with its counts is sent; any other name gives 411 and keeps the previous group; only a selected group may rewrite a file, its own .info |
| NntpServer.Server.Next | Server.C:712-746 | NEXT needs a group and a current article; it moves to the following number when that is in range and loads, replying 223 or the load error |
| NntpServer.Server.Retrieve | Server.C:748-850 | the article is chosen by message id (the first number in range whose file holds it, or none when no file does), number or the current one; out of range and load failures are reported; a found article sends its status and text, and only a numbered one becomes current |
| NntpServer.Server.PickTarget | Server.C:762-785 | a message id gives the first number in the group's range whose file holds it, or is refused when none does, a leading digit is a number, no argument means the current article, anything else is refused |
| NntpServer.Server.Fetch | Server.C:787-850 | the number is checked against the group's range, the article loaded and its status line and text sent |
| NntpServer.Server.SendText | Server.C:806-845 | the head, the body, both or nothing is sent with its closing lines, as the verb asks |
| NntpServer.Server.Xover | Server.C:524-587 | without a group 412; otherwise 224, the overview line of every loadable article in the sanitized range, and the closing dot |
| NntpServer.Server.SendOverviews | Server.C:572-584 | one overview line for each loadable article of the range, in order |
| NntpServer.Server.OverviewFor | Server.C:575-583 | an article that loads gives its overview line, any other nothing |
| NntpServer.Server.ListNumbers | Server.C:511-514 | 211, every number from the group's first to its last, and the closing dot |
| NntpServer.Server.EnterListGroup | Server.C:484-505 | a named group is entered exactly when it loads on the spool, or 411 is sent and the previous group kept; without a name the selected group is used, or 412 is sent; only an entered named group may rewrite a file, its own .info |
| NntpServer.Server.ListGroupAsWritten | Server.C:484-521 | a named group is entered exactly when it loads on the spool, and only then may its .info be rewritten; a group that does not load gives 411, without a name and without a selected group 412, each keeping the group; once entered, 211, the group's numbers and the closing dot are sent, and the article loaded is the entered group's first number, read from the group the article last came from |
| NntpServer.Server.ListGroup | Server.C:484-516 | a named group is entered exactly when it loads on the spool, as EnterListGroup says, and only then may its .info be rewritten; its first article becomes current and its numbers are listed |
| NntpServer.Server.FirstAndNumbers | Server.C:509-515 | the group's first article is loaded from the selected group and the numbers are listed |
| NntpServer.Server.ListGroups | Server.C:391-404 | the groups listed are exactly those of the spool walk that load, in the walk's order, one line each; each is valid, holds the settings its .config gives, and carries the spool directory's creation time; no file changes but the .info of a listed group |
| NntpServer.Server.ListOne | Server.C:393-404 | one more name of the walk is listed exactly when it loads, keeping which groups load and every .config as they were |
| NntpServer.ListedNext | Server.C:393-404 | the .info a loaded group may write keeps the listing state: the names so far are those that load on the spool before the listing |
| NntpServer.InfosStep | Server.C:393-404 | listing one more group keeps every file but the listed groups' .info files as it was before the listing |
| NntpServer.Server.ListingFor | Server.C:395-403 | a group gives its listing line exactly when it loads on the spool, with the counters and settings read from it and the spool directory's creation time; any other gives nothing and writes nothing |
| NntpServer.Server.List | Server.C:361-482 | each LIST form gets its reply: the extensions, the active, times or newsgroups listings of exactly the groups that load, in order (changing no file but their .info files), the overview format, the subscriptions, or an error; every form that lists no groups changes no file |
| NntpServer.Server.SendAll | Server.C:470-474 | every line is sent in order |
| NntpServer.Server.ListingBlock | Server.C:389-405 | a status line, the listing lines of exactly the groups that load, in order, and the closing dot; no file changes but the .info of a listed group |
| NntpServer.Server.NewGroups | Server.C:657-704 | bad date or time arguments get 501 and change no file; otherwise 231, the names of exactly the groups that load, in order, and the closing dot; no file changes but the .info of a listed group |
| NntpServer.Server.CopyByMail | Server.C:948-1030 | a group with ccpost set mails one copy with the preserved headers and the body, and one without mails none |
| NntpServer.Server.PostArticle | Server.C:852-946 | 340, then the posting is collected; too long gives 411 and stores nothing; otherwise the posting is parsed and posted as PostCollected says; an admitted posting creates no directory but modulus directories of the group, stamped with the posting's time, and changes no existing one, and a refused posting changes no directory |
| NntpServer.Server.PostCollected | Server.C:920-946 | the collected text is parsed and its Path updated, then filed as PostFiled says: without a Newsgroups line 441 and nothing changes; otherwise the first group named is loaded from the spool, a refusal gives 441 with Admitting's reason and writes at most the group's rebuilt .info, and a posting admitted takes a number after the group's last with every number skipped already on disk; it either fails with the file-creation error in a 441, or its file holds the reordered header with the server's added headers and the body, the .info holds the advanced counters where it can be written, no other file changes, 240 is sent, and the mail copy goes out when the group's ccpost asks for it; an admitted posting creates no directory but modulus directories of the group, stamped with the posting's time, and changes no existing one, and a refused posting changes no directory |
| NntpServer.Server.PostParsed | Server.C:931-946 | a parsed posting is the Filing of a fresh group, not forced, against the spool before the posting; a refusal answers 441 with Post's message and mails nothing, a posting answers 240 and mails the copy its group's settings ask for; an admitted posting creates no directory but modulus directories of the group, stamped with the posting's time, and changes no existing one, and a refused posting changes no directory |
| NntpServer.Server.PostCommand | Server.C:852-1032 | POST leaves the selected group unchanged and reads on from where the posting ended |
| NntpServer.Server.GroupCommand | Server.C:484-746 | GROUP, LISTGROUP and NEXT keep the session valid and only append output |
| NntpServer.Server.ArticleCommand | Server.C:524-850 | ARTICLE, HEAD, BODY, STAT and XOVER keep the session valid and only append output |
| NntpServer.Server.ListingCommand | Server.C:361-704 | LIST and NEWGROUPS keep the session valid and only append output |
| NntpServer.Server.Execute | Server.C:253-1060 | a session in AUTHINFO SIMPLE treats the line as credentials; a command whose rights are missing gets 480 and changes nothing; QUIT says goodbye and ends the session |
| NntpServer.Server.Dispatch | Server.C:281-1060 | QUIT alone ends the session, and only POST reads further input |
| NntpServer.Server.CommandLoop | Server.C:206-1067 | the greeting comes first and every reply follows it |
| Newsd.GatheredMeaning | newsd.C:188-205 | the mail is too long exactly when its line count exceeds a positive limit; otherwise the message is the header and the mail with CRs stripped and every LF made CR LF, and an over-long one is a prefix of that |
| Newsd.UnlimitedKeepsAll | newsd.C:188-205 | with no limit the whole mail is kept, never too long |
| Newsd.GatherMail | newsd.C:188-205 | the read loop yields the message and the too-long flag Gathered describes |
| Newsd.FromIsNoLoop | newsd.C:232-240 | a "From " line is rewritten and never taken for a loop marker |
| Newsd.PassedMeaning | newsd.C:229-254 | without a loop marker every "From " line becomes "X-Original-From: " and every other header is kept |
| Newsd.CaughtMeaning | newsd.C:242-254 | the first "X-Newsd-Loop:" or "X-Loop:" header stops the loop, with the earlier "From " lines rewritten and the rest untouched |
| Newsd.CaughtIff | newsd.C:229-254 | a loop is caught exactly when some header is a loop marker |
| Newsd.MassageHeader | newsd.C:229-254 | the loop leaves the header and the verdict Massaged describes |
| Newsd.DeadLetterParses | newsd.C:134-150 | a dead letter entry parses back into its header and body, with the empty line that ends it |
| Newsd.DeadLetter | newsd.C:134-150 | the spool becomes Appended: the entry added after what the .deadletters file held, created empty first when missing, and nothing written when it cannot be opened |
| Newsd.AppendedEnds | newsd.C:134-150 | an append that opens its file leaves the old text followed by the entry, one that cannot changes nothing, and no other file changes |
| Newsd.Complaint | newsd.C:160-267 | a message goes to standard error exactly when the mail was not gatewayed |
| Newsd.GatewayHeadFirst | newsd.C:173-186 | the first header of the parsed mail is the "Newsgroups:" line for the group |
| Newsd.GatewayLineNames | newsd.C:173-177 | that line names the group and is neither a Path, a From nor a loop marker |
| Newsd.GatewayTargetsGroup | newsd.C:173-267 | a mail without a loop marker is posted to the group the gateway was called for |
| Newsd.Deliver | newsd.C:258-267 | the posting is Delivered: the Filing of the spool, forced and as from localhost, with the group's settings; a refusal is NotPosted with Post's message (Admitting's reason, the creation error or the missing Newsgroups line) and no mail; a posting goes to the group the Newsgroups line names and sends the copy its ccpost asks for; an admitted posting creates no directory but modulus directories of the group, stamped with the posting's time, and changes no existing one, and a refused posting changes no directory |
| Newsd.Bless | newsd.C:216-254 | the mail is parsed, its Path updated and its header massaged |
| Newsd.Dispose | newsd.C:241-267 | a caught loop is Looped at the marker line, appends the dead letter to the spool as Appended says, creates no directory and sends no mail; any other mail is Delivered; an admitted posting creates no directory but modulus directories of the group, stamped with the posting's time, and changes no existing one, and a refused posting changes no directory |
| Newsd.Forward | newsd.C:188-267 | after the group is loaded: the mail is collected under the line limit of the group's settings, blessed and disposed of, as Forwarded says; an admitted posting creates no directory but modulus directories of the group, stamped with the posting's time, and changes no existing one, and a refused posting changes no directory |
| Newsd.MailGateway | newsd.C:155-267 | the GatewayOutcome: UnknownGroup, changing nothing, exactly when the group does not load into a fresh Group; otherwise the line limit is the postlimit its .config gives, a mail too long is TooLong and writes nothing after the load, and the rest is split, walked and disposed of (a loop as a dead letter, any other as Delivered) on the spool the load left, which differs at most in the group's rebuilt .info; the exit status is 0 exactly when the mail was posted, and then to the group the gateway was called for when that name is plain; an admitted posting creates no directory but modulus directories of the group, stamped with the posting's time, and changes no existing one, and a refused posting changes no directory |
| Newsd.ParseFlags | newsd.C:367-402 | the loop over the arguments yields the options or the usage exit FlagsOf describes |
| Newsd.FlagsConcat | newsd.C:367-402 | the arguments are read left to right, later ones starting from the options of the earlier ones |
| Newsd.ForkStaysOff | newsd.C:367-402 | no argument turns forking back on |
| Newsd.FlagsForeground | newsd.C:367-402 | once debug, the gateway, group creation or rotation is asked for, forking stays off whatever arguments follow |
| Newsd.HelpAnywhere | newsd.C:379-380 | any argument starting with "-h" ends in the usage text, whatever follows |
| Newsd.MissingName | newsd.C:369-389 | "-c" or "-mailgateway" as the last argument ends in the usage text with its own complaint |
| Newsd.ForegroundFlag | newsd.C:377-398 | each of the flags "-d", "-f", "-newgroup" and "-rotate", wherever it appears in a run that goes on, turns forking off |
| Newsd.ModeOf | newsd.C:414-438 | the server runs only when no rotate, gateway or newgroup was asked for, forking as the flags say |
| Newsd.OnlyServerForks | newsd.C:414-464 | rotate, gateway and newgroup runs never fork |

Where the code and its documentation disagree, the model follows the code.
Three examples:

- `Group::Load` stats the directory of the previous name before taking the new name.
- The POST collector starts outside the "after a line end" state, so a first line is not unstuffed.
- `SendArticle` writes an unterminated last line without a line end.

The model also keeps one quirk as written: a fresh `Group` stats its directory
before it takes the new name, so every group in LIST ACTIVE.TIMES carries the
creation time of the spool directory itself.

## Left out

- Sockets, `accept`, `fork`, `alarm` and the client limit: the session is one byte string in and a list of writes out.
- The clock: `time`/`gmtime` and `DateRFC822` are parameters (the split DATE fields and the Date header text).
- `AllGroups` and the directory walk behind it: the spool's group names are a parameter.
- The server's `tgroup.LoadInfo(name)` calls in LIST, LIST ACTIVE.TIMES, LIST NEWSGROUPS and NEWGROUPS: `Group.H` declares `LoadInfo(const char*, int dolock = 1)`, but `Group.C` defines only `LoadInfo(int)` and `Load(const char*, int)`, so the calls are taken as `Group::Load(name, 1)`.
- The gateway's `group.Load(name)` call: no declaration in the headers has one argument, so it is taken as `Group::Load(name, 1)` too.
- popen of sendmail: a mail copy is appended to a list of texts; a failing popen or pclose is not modelled.
- The spam filter command: its verdict is an oracle function of header and body.
- Article counters are unbounded: the 64-bit wrap of `End() + 1` is not modelled.
- The `flock` calls: the lock is a ghost state, and a lock that cannot be taken is not modelled. `ReadLock` and `WriteLock` also open the directory's `.lock` file with `O_CREAT` (Group.C:497-499, 523-525); that file's creation, and a failure to open it, are not modelled either.
- Logging and log rotation (`LogMessage`, `InitLog`, `Rotate`, `LogLevel` side effects, `MaxLogSize`): not part of the model's behaviour.
- The `Listen` directive's address parsing and the `MaxLogSize` value: those directives are accepted and change nothing in the model.
- `RunAs`, `CreateDeadLetter`, `chmod`/`chown` and the interactive `-newgroup` dialogue (`Group::NewGroup`): they touch users, permissions and the terminal.
- The usage text of `HelpAndExit`: it is a fixed text; its exit is modelled as the Usage outcome.
- `VERSION`, `SPOOL_DIR`, `CONFIG_FILE` and the sendmail path are build-time constants, given as parameters.
- The NNTP 441 reply after a ParseArticle failure is unreachable, since `Group::ParseArticle` always returns 0.
- HELP: its reply is a fixed text, sent as the status line and that text.
- NntpServer.Server.ListGroups: the counters of each listed group are not restated; ListingFor states them as read from the group's .info, or rebuilt from its articles, at the moment that group loads. The listing states the names, their order, validity, creation time and settings.
- `sleep`: a failed login's pause is recorded as a list of the pauses made (`slept`); no clock advances.
- NntpServer.Server.Execute: states authentication, the rights gate and QUIT; the other commands' effects are stated by the methods it calls.
- NntpServer.Server.Dispatch: states only which commands end the session and read more input.
- NntpServer.Server.CommandLoop: states only that the greeting comes first; each command is stated by Execute.
- NntpServer.Server.PostCommand, NntpServer.Server.GroupCommand, NntpServer.Server.ArticleCommand, NntpServer.Server.ListingCommand: routing only; their contracts state that the object stays valid.
- Newsd.Complaint: states when standard error gets a message, not its wording.
- Formatted replies (those built with `snprintf`) are kept as values of a Report datatype; their texts are given by `ReportText`.
- `DeadLetter` calls `fchmod` on the stream before checking that `fopen` succeeded: a failed open is modelled as writing nothing.
- The gateway's loop message names the build-time spool directory while the dead letter goes to the configured one: the message text is modelled as written.
- Newsd.MailGateway: the mail is collected and posted against the spool as the gateway's own first load left it (the ghost output seen), which differs from the spool before only in the group's rebuilt .info; the UnknownGroup message is Load's, not restated.
- `strcmp` on the program's arguments compares C strings: the arguments are read through their C-string view.
- `Group::FindArticleByMessageID` compares whatever the line buffer holds when a file has neither a blank line nor a Message-Id header: the model keeps that buffer, so the last line read, or the path for an empty file, is what is compared.

## Findings

| source | as written | input that shows it | evidently intended | confidence | as-written member | corrected member |
|---|---|---|---|---|---|---|
| Server.C:509 | LISTGROUP with a group name sets the current article with `article.Load(group.Start())`, which loads from the group the article last came from | select group A with GROUP and read an article, then send LISTGROUP B | the first article of group B becomes current | not executed | NntpServer.Server.ListGroupAsWritten, NntpServer.ListGroupReadsOldGroup, NntpServer.ListGroupOldGroupExample | NntpServer.Server.ListGroup, NntpServer.ListGroupReadsSelectedGroup, NntpServer.ListGroupSelectedGroupExample |
