# A verified model of bnetd

bnetd is a chat and game server. Its state is one heap of connections, channels, games and accounts
that point at each other, changed one request at a time by small C functions. This project models the
parts where those pointers have to agree and proves what keeps them agreeing, over whole runs; it adds the
self-contained pieces of the inter-server protocol (BITS). `dafny verify dfyconfig.toml` checks everything.

| File | What it models |
|---|---|
| `Text.dfy`, `Numbers.dfy`, `Lists.dfy`, `Counting.dfy` | case-insensitive comparison, parsing of numbers, lists without repetition, sizes of sets |
| `Attributes.dfy`, `AttributeFile.dfy`, `AccountFormat.dfy` | an account's attribute list and its file: escaping, reading lines, saving, loading |
| `AccountStore.dfy`, `AccountRuns.dfy`, `AccountAging.dfy` | the write-back cache over that file, what it keeps in memory, the walk by keys and the full upload |
| `AccountIndex.dfy` | the hashed index of accounts by name and number |
| `ChannelModel.dfy`, `ChannelInvariant.dfy`, `ChannelCommands.dfy`, `ChannelLaws.dfy`, `ChannelPlaces.dfy`, `ChannelFile.dfy`, `Succession.dfy`, `LostFlag.dfy`, `Channels.dfy` | channels: membership, where a join leads, the channel file, operators and who follows them, flags, bans, rollover copies, the operator commands |
| `GameResults.dfy`, `GameReport.dfy`, `GameModel.dfy`, `GameLaws.dfy`, `GameHistory.dfy`, `GameLedger.dfy`, `Games.dfy` | games: slots, hosts, result consensus, the life of a game in a run, the closing report and its counters, one report and whole runs |
| `LadderRating.dfy` | adjusting a ladder rating |
| `Quota.dfy` | the flood quota |
| `LoginList.dfy`, `BitsAddress.dfy`, `BitsFlood.dfy` | BITS: the login list and session ids, host addresses, spreading an attribute change |
| `FieldSplitter.dfy` | the in-place field splitter of game information |

Channels and games are modelled twice: as values, where an operation is a function from state to state and
the laws over runs are proved, and as classes with the fields of the C structures, whose methods follow the C
functions and are proved to do to the objects exactly what the function does to the value (`World()` before and
after). `K` and `C`, `G` and `C` name channels or games and connections in the value models; the classes put
the objects themselves there.

## Where the code is not what it seems

* The test that should keep the keys under `BNET\CharacterDefault\` out of the account file is made on the
  escaped key, so it never fires (`NothingIsSkipped`); a comparison of 20 characters would not cover the
  prefix either.
* Keys and values with a double quote, and empty keys, do not survive saving and loading (`ReloadLaw`). The
  refinement of a plain map is therefore proved for attributes that do; for all others `EvictionLaw` says that it
  fails, and `RunLaw` at which step of a run. An account name may hold a double quote: such an account has another
  name once it has been saved and loaded (`CreatedSurvives`).
* A key that begins with `DynKey` is written under its own name and read under another (`ReadYourWrite`).
* A full upload does not load the account first; the test is commented out. An account that has been dropped from
  memory is sent without attributes and with a good status, and the asking server marks its copy loaded (`UploadLaw`,
  `EvictedUploadsNothing`).
* An administrator can designate somebody while a channel has no operator. That does no harm until the next one
  enters: then the designee becomes operator without the operator flag (`EnteringFlags`, `FlagLaw`; `FlagLost` is
  such a run). An administrator's /flag, and the initial flags of an account, set or clear the operator flag
  whoever is operator (`FlagCommandLaw`, `LoginFlagLaw`, `FlagGiven`).
* A full channel can be entered by its full name (`LimitLaw`). A rollover copy made for a connection that is then
  refused stays listed; it is permanent, so no empty temporary channel is left.
* A report that a player is still playing spoils the game when it comes after a final one for that player
  (`BadLaw`), so the order of reports matters exactly when both kinds occur for one player (`OrderLaw`).
* A game whose first player is refused stays listed without players. Asking for the name of a game of another type
  is answered with success and leads into no game (`AnswerLaw`).
* The address allocator never reports that it has run out: its caller tests for address 0, which the allocator
  never returns, so the host after the last free address shares one (`AddressLaw`).
* Session ids start over after 4294967295 logins (`SessionIdLaw`).
* The highest account number plus one wraps to 0, which is refused, so the last number ends account creation
  (`AccountIndex.Table.Create`).

## Model

| member | source | states |
|---|---|---|
| Text.StrCaseEqual | src/compat/strcasecmp.c:33-66 | The comparison loop answers exactly whether the two strings are equal once A-Z are folded; the lookups below are by folded name |
| Text.SameTextLaw | src/compat/strcasecmp.c:33-66 | Two strings count as equal if and only if they have the same length and in every place the same character, or one of A to Z and the same letter in the other case |
| AttributeFile.EscapeChars | src/common/util.c:432-504 | The escaping loop writes exactly the specified text for every byte string, control letters and three-digit octal included |
| AttributeFile.UnescapeChars | src/common/util.c:507-589 | The unescaping loop decodes exactly as specified, unknown escapes and short octal runs included |
| AttributeFile.DecodeAt | src/common/util.c:507-589 | One decoding step takes the characters and gives the text that the specification says, at any position |
| AttributeFile.ReadOctal | src/common/util.c:507-589 | The inner loop takes the longest run of at most three octal digits |
| AttributeFile.FileGetLine | src/common/util.c:66-118 | Reading one line from any place in a file gives the specified line and goes on behind it, whatever line ends are mixed |
| AttributeFile.UnescapePrefix | src/common/util.c:432-589 | Whatever follows it, an escaped text decodes to itself and then the rest |
| AttributeFile.UnescapeInvertsEscape | src/common/util.c:432-589 | Unescaping undoes escaping for every byte string |
| AccountFormat.EscapeLaw | src/common/util.c:432-504 | Character by character: quotes and backslashes get a backslash, printable characters stay, bell to carriage return become their letters, and every other byte three octal digits of its value |
| AccountFormat.UnescapeLaw | src/common/util.c:507-589 | Item by item: what every text decodes to, the letters, octal numbers from 1 to 255 of exactly three digits, and everything else as it stands |
| AccountFormat.PairLaw | src/bnetd/account.c:842-902 | Every line of six or more characters with a quoted key and a quoted value is read as that pair, with any white space around the sign, the value closed or not, and anything behind it |
| AccountFormat.LineLaw | src/bnetd/account.c:842-902 | Of all lines exactly those of six or more characters are read that begin with a quote and a non-empty key; those not of the form of a pair are read with no value |
| AccountFormat.LinesLaw | src/common/util.c:66-118 | A file is the list of its lines, empty ones included, and the last may go without a newline |
| AccountFormat.JoinLaw | src/common/util.c:66-118 | A backslash at the end of a line joins it to the next |
| AccountFormat.ReturnsLaw | src/common/util.c:66-118 | A carriage return anywhere in a file makes no difference |
| AccountFormat.SavedLaw | src/bnetd/account.c:456-490 | A saved list has one line for each attribute, in list order, with the escaped key and value in quotes |
| AttributeFile.ReadWritten | src/bnetd/account.c:871-886 | What the line format of the save loop reads back as: the key and the value each cut at their first double quote |
| AttributeFile.LineRoundTrip | src/bnetd/account.c:844-886 | A written line reads back to its pair if and only if the key is not empty and neither part holds a double quote |
| AttributeFile.NothingIsSkipped | src/bnetd/account.c:474-477 | The test for keys to leave out looks at the escaped key, so it never fires: no key is exempt from being saved |
| AttributeFile.LinesOfSaved | src/bnetd/account.c:456-490 | The saved file splits into exactly the lines that were written, one per attribute, whatever bytes the attributes hold |
| AttributeFile.ReadIsFileSafe | src/bnetd/account.c:842-902 | Whatever pair was written, what is read back of it has a non-empty key and no double quote, so a second save loses nothing more |
| AttributeFile.LoadIsOverlay | src/bnetd/account.c:785-912 | Loading saved pairs lays them one after the other over the map there was |
| AttributeFile.ReloadLaw | src/bnetd/account.c:384-912 | Saving and loading gives the same map if and only if every pair has a non-empty key and no double quote, although the list comes back reversed |
| Attributes.LookupIsMap | src/bnetd/account.c:622-641 | Looking a key up in the list is looking its folded name up in the map the list stands for |
| Attributes.AssignIsUpdate | src/bnetd/account.c:707-782 | Replacing, unlinking or prepending is the map update, and keeps keys distinct ignoring case |
| Attributes.AssignLaw | src/bnetd/account.c:707-782 | The first attribute with the key keeps its place and its spelling and gets the value, or goes; a new one comes in front; no other attribute moves |
| AccountStore.FindAttr | src/bnetd/account.c:622-641 | The lookup loop returns the first attribute with the key, or nothing |
| AccountStore.LoadedKeepsView | src/bnetd/account.c:785-912 | Loading changes what is in memory but not the map the account stands for |
| AccountStore.SaveKeepsView | src/bnetd/account.c:384-530 | Neither a save, nor a failed write, nor an eviction changes the map the account stands for |
| AccountStore.StepAgrees | src/bnetd/account.c:384-912 | Every set, get and sweep does to the account and answers what a plain map would, or is refused because the file cannot be read, and keeps the invariant |
| AccountStore.CacheRefinesMap | src/bnetd/account.c:384-912 | Over every interleaving of sets, gets, sweeps, failed writes and reloads, the cache refines a plain case-insensitive map |
| AccountStore.EvictionLaw | src/bnetd/account.c:384-530 | An account saved and dropped from memory still stands for the same map if and only if every pair survives the file format |
| AccountRuns.StepLaw | src/bnetd/account.c:384-912 | With any C strings stored, every set, get and sweep answers and does what a plain map would if and only if it is not a sweep that drops from memory a list whose file, as written, did not keep it |
| AccountRuns.RunLaw | src/bnetd/account.c:384-912 | Over every run, with any C strings stored, the account is a plain map in every step if and only if no sweep drops a list with an empty key or a double quote of which the file was the last save |
| AccountRuns.CallLaw | src/bnetd/account.c:384-782 | Beside its contents: a read marks the account as in use, a change that is not refused makes it differ from its file, neither writes the file or makes it older, and only an unreadable file refuses a change |
| AccountAging.IdleLaw | src/bnetd/account.c:399-437 | Over any sweeps, a saved account that nobody reads is in memory if and only if its age and the time since, added up to each sweep, stayed below the flush time |
| AccountAging.InUseLaw | src/bnetd/account.c:399-437 | Over any run, an account that is read before every sweep is never dropped, whatever else is done to it |
| AccountAging.HalvingLaw | src/bnetd/account.c:399-406 | After k sweeps that each found it read an account's age is what it was, halved k times |
| AccountAging.FadingLaw | src/bnetd/account.c:399-437 | After k such sweeps an account is dropped exactly when its age, halved k times, and the time since reach the flush time |
| AccountAging.AgeIsBounded | src/bnetd/account.c:399-406 | No operation makes an account older than one and a half flush times |
| AccountAging.UnsavedLaw | src/bnetd/account.c:408-530 | A sweep never drops changes that are not saved: it saves and keeps them, or keeps them as they are when the file cannot be written |
| AccountAging.UnchangedLaw | src/bnetd/account.c:384-530 | Reading and sweeping alone, in any order, never writes the file |
| AccountStore.CreatedSurvives | src/bnetd/account.c:1410-1446 | A new account saved and dropped from memory still stands for its name, number and password hash if and only if name and hash hold no double quote, which the name check does not ask for |
| AccountStore.CreatedAnswers | src/bnetd/account.c:150-208 | A new account answers to its name, number and password hash under the three keys |
| AccountStore.ReadYourWrite | src/bnetd/account.c:604-618 | For an account in any state, a key just set reads as the new value if and only if the account is in memory or can be loaded, and the key does not begin with DynKey, whose reads go to another key while writes do not, or that other key already answers with the value |
| AccountStore.TranslateLaw | src/bnetd/account.c:604-641 | A key that begins with DynKey, in any case, answers what it does with Record in its place; any other answers with the account's first value for it, else the default account's, else nothing |
| AccountStore.WalkInOrder | src/bnetd/account.c:1375-1407 | With keys distinct, the n-th step of the walk is at the n-th attribute and after the last it ends |
| AccountStore.WalkEndsIff | src/bnetd/account.c:1387-1407 | The walk by keys ends if and only if no key occurs twice |
| AccountStore.OwnValue | src/bnetd/bits_va.c:311-323 | Every attribute whose key is not read elsewhere is sent with its own value |
| AccountStore.UploadIsList | src/bnetd/bits_va.c:304-325 | A list in memory is sent whole, in order and unchanged if and only if each of its DynKey attributes has the value found under the key it is read from |
| AccountStore.ReceivedIsOverlay | src/bnetd/handle_bits.c:360-370 | Setting the pairs of an upload one after the other lays them over the map of the copy |
| AccountStore.UploadLaw | src/bnetd/bits_va.c:280-332 | A full upload succeeds and gives an empty copy the account's map if and only if the account is in memory or has no attributes, and its DynKey attributes have the values they are read as |
| AccountStore.EvictedUploadsNothing | src/bnetd/bits_va.c:304-328 | An account with attributes that a sweep has just dropped from memory still stands for them and is sent without any, with a good status |
| AccountStore.Account.FromFile | src/bnetd/account.c:915-938 | An account starts unloaded, clean and empty, standing for its file; the invariant holds at once if and only if what the file reads back to survives another save |
| AccountStore.Account.Created | src/bnetd/account.c:125-213 | A new account is in memory, dirty and without a file, with its three attributes; the invariant holds if and only if name and password hash hold no double quote |
| AccountStore.Account.LoadAttrs | src/bnetd/account.c:785-912 | The loading loop leaves the state the specification of loading gives, or refuses and changes nothing |
| AccountStore.Account.Assign1 | src/bnetd/account.c:707-782 | The in-place edit of the list is the specified one and marks the account dirty |
| AccountStore.Account.GetStrAttr | src/bnetd/account.c:567-641 | A get leaves the specified state and gives the specified answer, default account and key translation included |
| AccountStore.Account.SetStrAttr | src/bnetd/account.c:681-782 | A set leaves the specified state, or is refused when the file cannot be read |
| AccountStore.Account.SaveFile | src/bnetd/account.c:384-530 | A sweep ages, writes, cleans and evicts as specified, for every mix of dirty, loaded and a failing write |
| AccountStore.Account.Grow | src/bnetd/account.c:399-406 | The age is halved for an account that was read, grows by the delta for one that was not, and is capped at one and a half flush times; over runs that is `AccountAging.FadingLaw` |
| AccountStore.Account.FileText | src/bnetd/account.c:456-490 | The writing loop produces the text of the whole list, head first |
| AccountStore.Account.AllAttrs | src/bnetd/bits_va.c:280-332 | For an account in any state the key walk of a full upload sends the specified pairs and status, loads nothing and marks the account accessed |
| Numbers.AddDigit | src/common/util.c:160-201 | One more digit is taken if and only if the value stays within 32 bits |
| Numbers.ValueLaw | src/common/util.c:160-201 | Digits count from the left, tenfold for each that follows |
| Numbers.StrToUint | src/common/util.c:144-206 | The parsing loop accepts exactly blanks, an optional plus and digits whose value fits 32 bits, and returns that value |
| Numbers.ParseLaw | src/common/util.c:144-206 | A text is a number if and only if it is blanks, at most one plus and digits, or a beginning of that, with a value below 2 to the 32, which is what it reads as |
| Numbers.DecimalParses | src/common/util.c:144-206 | Printing a 32-bit number and parsing it gives it back |
| Numbers.DecimalValue | src/common/util.c:144-206 | The printed digits denote the number |
| AccountIndex.AccountHash | src/bnetd/account.c:98-122 | The loop over the characters, with the hash and the rotating position as accumulators, computes the specified 32-bit hash |
| AccountIndex.HashLaw | src/bnetd/account.c:98-122 | The empty name has hash 0; a character in front of a name enters its hash in lower case, and the hash of the rest is turned left by seven bits |
| AccountIndex.HashFolds | src/bnetd/account.c:98-122 | Names that differ only in case have the same hash |
| AccountIndex.ReadAskedUid | src/bnetd/account.c:340-381 | What number a #-name asks for, 0 when it is none |
| AccountIndex.AccountMatch | src/bnetd/account.c:340-381 | An account answers to a text if and only if the text is its name, ignoring case, or # and its number |
| AccountIndex.DenotesAtMostOne | src/bnetd/account.c:340-381 | With names and numbers distinct no text denotes two accounts |
| AccountIndex.DenotesLaw | src/bnetd/account.c:340-381 | A # and a number from 1 to 2^32 - 1 denotes the account of that number and no other; every other text the account of that name |
| AccountIndex.DenotesFolds | src/bnetd/account.c:340-381 | Texts that differ only in case denote the same accounts, the form with # and a number included |
| AccountIndex.OwnNames | src/bnetd/account.c:1410-1446 | Every account answers to # and its number, and to its own name if that is an accepted one |
| AccountIndex.NameLaw | src/bnetd/account.c:1410-1446 | A name is accepted if and only if it has two to fifteen characters, a digit or a letter in front, and no blank or comma |
| AccountIndex.AllAfterInsert | src/common/hashtable.c:290-319 | Putting an entry in one row adds exactly that entry to the table |
| AccountIndex.Table.constructor | src/bnetd/account.c:962-974 | An empty table is valid |
| AccountIndex.Table.FindByUid | src/bnetd/account.c:1132-1143 | The scan of all rows finds the account with the number if there is one |
| AccountIndex.Table.FindByName | src/bnetd/account.c:1144-1163 | Looking only in the row of the hash finds the same account as a scan of all of them would |
| AccountIndex.Table.Find | src/bnetd/account.c:1114-1166 | The account found is the one the text denotes, and none is found only if none does |
| AccountIndex.Table.InUse | src/bnetd/account.c:1203-1234 | The duplicate scan answers whether the name or the number is taken |
| AccountIndex.Table.Add | src/bnetd/account.c:1169-1247 | An account is added exactly when its name and number are free; names, numbers, hashes and the largest number stay right |
| AccountIndex.Table.Insert | src/common/hashtable.c:290-319 | The entry is in the row of its hash and the table stays valid |
| AccountIndex.Table.Create | src/bnetd/account.c:125-233 | A new account gets the next number, which is free until numbers run out, and is listed exactly when the name is acceptable and free |
| ChannelInvariant.OldestIsOldest | src/bnetd/channel.c:921-950 | The loop whose last match wins picks, from a list kept newest first, the longest-standing member who qualifies |
| ChannelInvariant.ChooseKeeps | src/bnetd/channel.c:889-976 | Choosing an operator keeps members and bans, forgets the designee, leaves operator and designee members and touches nothing of connections but the flag |
| ChannelInvariant.PartedKeeps | src/bnetd/channel.c:619-707 | Leaving removes exactly that member and keeps the channel well-formed whoever follows as operator |
| ChannelInvariant.LeftLeaves | src/bnetd/channel.c:650-705 | Seen from outside, leaving takes the one member out of its channel, or the channel away if that was all it had; nobody and nothing else moves |
| ChannelInvariant.EnteredEnters | src/bnetd/channel.c:565-614 | Seen from outside, entering puts the one connection first in the channel and in no other; nobody else moves and no ban changes |
| ChannelInvariant.LeftKeepsInv | src/bnetd/channel.c:619-707 | Leaving keeps the invariant; an empty channel that is not permanent is gone |
| ChannelInvariant.EnteredKeepsInv | src/bnetd/channel.c:525-616 | Entering a channel that does not ban the connection keeps the invariant |
| ChannelInvariant.CreatedKeepsCore | src/bnetd/channel.c:100-369 | A new channel with a free name keeps everything but that no listed channel is empty |
| ChannelInvariant.ScanMeaning | src/bnetd/channel.c:1847-1907 | The traversal ends in the first channel with the full name, or with the short name, place and room; at the end no listed channel has either |
| ChannelInvariant.TargetIsSound | src/bnetd/channel.c:1827-1930 | A channel found has the name or has room; one made has a name nobody has, and a permanent one copies an existing limit |
| ChannelPlaces.EntersFirst | src/bnetd/channel.c:1827-1907 | A join by name enters the first listed channel that has the full name, or the short name, the connection's country and realm, and room, if that lets the connection in, and else no channel; the list stays |
| ChannelPlaces.MakesCopy | src/bnetd/channel.c:1864-1920 | If no channel qualifies but some have the short name, a copy of the last of those is made and entered, with the connection's country and realm as far as it has them, and in its name one more than the number of channels of that short name and place; if it cannot be made, or somebody has the name, the connection gets a channel of its own |
| ChannelPlaces.MakesOwn | src/bnetd/channel.c:1921-1930 | If no channel qualifies and none has the short name, the connection gets a temporary channel of exactly that name, without limit, country or realm, and an empty name leads nowhere |
| ChannelPlaces.CasesAreComplete | src/bnetd/channel.c:1827-1930 | One of the three always is the case, and there is one way to make the copy |
| ChannelInvariant.SetChannelKeepsInv | src/bnetd/connection.c:1684-1786 | Changing channel keeps the invariant, rollover creation and a refusal by a ban included |
| ChannelInvariant.MatchIsFound | src/bnetd/connection.c:2781-2804 | A connection whose account answers to a text is the one looked up by that text, because nobody else can |
| ChannelInvariant.BanMatchesOnlyFound | src/bnetd/channel.c:1101-1124 | A new ban keeps out no member but the connection looked up by the same text |
| ChannelInvariant.DesignateKeepsInv | src/bnetd/command.c:865-914 | /designate keeps the invariant |
| ChannelInvariant.ResignKeepsInv | src/bnetd/command.c:916-936 | /resign keeps the invariant |
| ChannelInvariant.KickKeepsInv | src/bnetd/command.c:938-1004 | /kick keeps the invariant |
| ChannelInvariant.BanKeepsInv | src/bnetd/command.c:1006-1073 | /ban keeps the invariant: once the looked-up connection has been moved out, nobody in the channel is banned from it |
| ChannelInvariant.UnbanKeepsInv | src/bnetd/command.c:1075-1112 | /unban keeps the invariant |
| ChannelInvariant.WithoutTextIsOk | src/bnetd/channel.c:1061-1098 | Removing the first equal entry leaves none equal to it, and only entries that were there |
| ChannelInvariant.DisconnectKeepsInv | src/bnetd/connection.c:393-560 | Destroying a connection keeps the invariant |
| ChannelInvariant.RelievedKeepsInv | src/bnetd/connection.c:1241-1247 | Once the connection found by the account's name is gone, nobody uses the account and the invariant holds |
| ChannelInvariant.LoginKeepsInv | src/bnetd/connection.c:1219-1251 | A login keeps the invariant, the takeover of an account in use included |
| ChannelInvariant.StepKeepsInv | src/bnetd/channel.c:525-1124 | Every operation keeps it: membership and channel fields agree both ways, counts are lengths, operator and designee are different members, no empty temporary channel, no banned member, channel names distinct |
| ChannelInvariant.RunKeepsInv | src/bnetd/channel.c:525-1124 | The invariant holds in every state of every run |
| ChannelInvariant.InitialInv | src/bnetd/channel.c:1423-1605 | It holds in a server that has only its permanent channels |
| ChannelFile.ListedLaw | src/bnetd/channel.c:1423-1605 | The channel file makes exactly one channel for every name, in any case, from the first line that can make one of it; a line without a name is named by its realm, short name and country and -1; later lines come first |
| ChannelLaws.LimitLaw | src/bnetd/connection.c:1763-1779 | Joining keeps every member limit if and only if it does not enter a full channel by its full name |
| ChannelLaws.StepLimitLaw | src/bnetd/channel.c:1856-1876 | Every operation keeps every member limit if and only if it does not put somebody in a full channel by its full name, kicks and bans to the void included |
| ChannelLaws.OrderlyRunLaw | src/bnetd/channel.c:889-976 | In every state of a run limits and operator flags are right if and only if no operation of the run enters a full channel by its full name, enters a channel where a designee waits without an operator, or sets or clears the flag against the role |
| ChannelLaws.DesignationRunLaw | src/bnetd/channel.c:889-976 | A run that designates only where there is an operator, and sets no flag against the role, ends with exactly the operators carrying the flag |
| Succession.ResignSuccession | src/bnetd/command.c:916-936 | Who follows an operator that resigns: the designee, else the longest-standing other member whose account is operator of that channel, or of any channel where the channel allows operators, else nobody |
| Succession.LeaveSuccession | src/bnetd/channel.c:650-705 | Who follows an operator that leaves, by the same rule over those who remain; no designee waits afterwards |
| Succession.SuccessionLaw | src/bnetd/channel.c:619-707 | Over every operation: an operator that stays and does not resign stays operator; one that goes, by a join elsewhere, a kick, a ban, a disconnection or a login to its account, or that resigns, is followed by the right one, or comes back as operator when nobody could follow |
| Succession.CrownLaw | src/bnetd/channel.c:565-614 | Over every operation: a channel without operator gets one only when somebody enters it, and then the designee who waited, else the newcomer if its account settings and the channel's allow it, whoever else they would allow |
| ChannelLaws.EnteringFlags | src/bnetd/channel.c:953-955 | Entering keeps the flags right if and only if no designee was waiting in a channel without operator: then the early return leaves the new operator without its flag |
| ChannelLaws.FlagLaw | src/bnetd/channel.c:889-976 | An operation keeps "exactly the operators carry the flag" if and only if it does not let somebody into a channel where a designee waits without an operator, kicks and bans to the void included, and is no /flag or login that sets or clears the flag against the role; a designation alone breaks nothing |
| ChannelLaws.FlagCommandLaw | src/bnetd/command.c:2590-2617 | /flag keeps the flags right if and only if it is not from an administrator, or its flag bit says whether that administrator is operator of the channel it is in |
| ChannelLaws.LoginFlagLaw | src/bnetd/connection.c:1250-1257 | A login, the takeover included, keeps the flags right if and only if the account's initial flags are without the operator's bit, the one of weight two |
| ChannelLaws.JoinFlagLaw | src/bnetd/connection.c:1684-1786 | The same for one channel change, with the guard on the channel the name leads to |
| ChannelLaws.VacancyLaw | src/bnetd/channel.c:996-1014 | While no designee waits without an operator no operation enters such a channel, and an operation leaves one waiting if and only if it is a designation that takes effect in a channel without operator |
| ChannelLaws.RecordLaw | src/bnetd/connection.c:292-390 | What connecting, settling country and realm, showing a class, setting flags, registering, authorizing and disconnecting store, field by field, and that they change nothing else |
| LostFlag.FlagLost | src/bnetd/channel.c:953-955 | A run from the start of the server that loses a flag: two players come, one is designated where nobody is operator, an outsider joins, and the designee is operator without the flag |
| LostFlag.FlagGiven | src/bnetd/command.c:2590-2617 | A run from the start in which an administrator gives herself the flag without being operator |
| ChannelCommands.SetChannelMoves | src/bnetd/connection.c:1684-1786 | A channel change moves the one connection to a channel that goes by the name, as its newest member, or to none if it fails, and reports which; all others keep their places and order |
| ChannelCommands.SetChannelUndisturbed | src/bnetd/connection.c:1684-1786 | A channel change leaves every channel but the one left and the one entered as it was, operator, designee, count and bans included, and the flags of everybody outside them; no channel appears but the one entered or an empty copy, and none goes but a temporary one that the connection had to itself |
| ChannelCommands.FoundIsMeant | src/bnetd/connection.c:2781-2804 | The lookup finds exactly the connection whose account the text names |
| ChannelCommands.KickLaw | src/bnetd/command.c:938-1004 | A kick by an operator or administrator moves whoever in the channel the text names, unless an administrator, to the void and nobody else, and leaves all other channels as they were; any other kick does nothing |
| ChannelCommands.DesignateLaw | src/bnetd/command.c:865-914 | A designation by an operator or administrator makes whoever in the channel the text names, unless the operator, the designee and changes nothing else; any other does nothing |
| ChannelCommands.BanLaw | src/bnetd/command.c:1006-1073 | A ban by an operator or administrator, unless of an administrator's account, puts the text on the list and moves only whom it names, if in the channel, to the void, leaving all other channels as they were; any other does nothing |
| ChannelCommands.WithBanLaw | src/bnetd/channel.c:1017-1058 | Of the channel only the ban list changes, by at most the one text, which is on it afterwards except in the void |
| ChannelCommands.UnbanLaw | src/bnetd/command.c:1075-1112 | By an operator or administrator exactly the entries equal to the text, ignoring case, go and nothing else changes; by others nothing |
| ChannelCommands.LoginLaw | src/bnetd/connection.c:1241-1257 | A login gives the account, and the flag if its initial flags have it, to the one connection and destroys whichever other connection had it; everybody else keeps account and channel |
| ChannelCommands.WindowLaw | src/bnetd/connection.c:1241-1247 | While the connection that a login has marked still exists, a ban of the account that finds the new connection leaves the old one, and nobody else, in a channel that bans it |
| Channels.Server.constructor | src/bnetd/channel.c:1750-1756 | A server without channels and connections is an initial state |
| Channels.Server.LoadPermanent | src/bnetd/channel.c:1423-1605 | The permanent channels are exactly those the lines of the channel file make, latest first, a line without a name getting one and a line with a name that is taken left out; the server is in an initial state |
| Channels.Server.Connect | src/bnetd/connection.c:292-390 | A new connection is the specified step, and the invariant holds |
| Channels.Server.SetPlace | src/bnetd/connection.c:2585-2653 | Setting country or realm later is the specified step and keeps the invariant; the channel the connection is in stays |
| Channels.Server.SetClass | src/bnetd/connection.c:577-643 | A connection that shows its class before it logs in is the specified step, and the invariant holds |
| Channels.Server.SetFlags | src/bnetd/command.c:2590-2617 | /flag answers whether it is from an administrator and is the specified step, and the invariant holds |
| Channels.Server.Login | src/bnetd/connection.c:1219-1257 | Attaching a listed account, in use or not, with its initial flags, is the specified step, the destruction of the connection that had it included, and the invariant holds |
| Channels.Server.ChooseOperator | src/bnetd/channel.c:889-976 | The election in place leaves channel and flags as specified, early return included |
| Channels.Server.Elect | src/bnetd/channel.c:906-951 | The loop over the member list leaves the specified operator and no designee |
| Channels.Server.MoveGavel | src/bnetd/channel.c:961-972 | The old operator loses the flag and the new one gets it, nobody else changes |
| Channels.Server.FindOperator | src/bnetd/channel.c:921-950 | The last-match loop finds the oldest candidate of the list |
| Channels.Server.CheckBanning | src/bnetd/channel.c:1101-1124 | The answer is yes exactly for a bot where bots are kept out or for an account that some entry denotes |
| Channels.Server.AddConnection | src/bnetd/channel.c:525-616 | Refused exactly if banned, else the connection is the newest member and an operator is chosen if there was none |
| Channels.Server.Unlink | src/bnetd/channel.c:669-692 | Relinking the member list takes out exactly the one member and counts it |
| Channels.Server.DelConnection | src/bnetd/channel.c:619-707 | Members, count, designee, operator and channel list afterwards are as specified |
| Channels.Server.LeaveChannel | src/bnetd/connection.c:1692-1696 | The whole state after leaving is the specified one |
| Channels.Server.ScanChannels | src/bnetd/channel.c:1847-1907 | The traversal with its template and full count gives the outcome that `ChannelPlaces` describes |
| Channels.Server.CreateChannel | src/bnetd/channel.c:100-369 | Made exactly if the arguments are acceptable and, when permanent, the name is free; then it is the first of the list, empty |
| Channels.Server.FindOrCreate | src/bnetd/connection.c:1763-1771 | The channel a join ends in, found or made, is the specified one |
| Channels.Server.SetChannel | src/bnetd/connection.c:1684-1786 | Channels, connections and answer after a channel change are as specified |
| Channels.Server.Admit | src/bnetd/connection.c:1773-1779 | A refused connection is left in no channel, an admitted one is in exactly that one |
| Channels.Server.FindConnection | src/bnetd/connection.c:2781-2804 | The connection found is the first that uses the account the text denotes |
| Channels.Server.SetNextOperator | src/bnetd/channel.c:996-1014 | Anybody but the present operator becomes designee, the operator is refused; that it is a member is the caller's check |
| Channels.Server.DesignateNext | src/bnetd/command.c:865-914 | /designate is the specified step and keeps the invariant |
| Channels.Server.ResignOperator | src/bnetd/command.c:916-936 | /resign is the specified step and keeps the invariant |
| Channels.Server.KickMember | src/bnetd/command.c:938-1004 | /kick is the specified step and keeps the invariant |
| Channels.Server.BanUser | src/bnetd/channel.c:1017-1058 | The text is on the list once, wherever it was |
| Channels.Server.BanMember | src/bnetd/command.c:1006-1073 | /ban, the ban and the expulsion, is the specified step and keeps the invariant |
| Channels.Server.UnbanUser | src/bnetd/channel.c:1061-1098 | The first entry equal to the text, ignoring case, is gone and nothing else |
| Channels.Server.UnbanMember | src/bnetd/command.c:1075-1112 | /unban is the specified step and keeps the invariant |
| Channels.Server.JoinChannel | src/bnetd/connection.c:1684-1786 | A join is the specified step and keeps the invariant |
| Channels.Server.DestroyConnection | src/bnetd/connection.c:393-560 | Destroying a connection is the specified step and keeps the invariant |
| GameResults.Sticky | src/bnetd/game.c:1731-1803 | A final result never changes and the bad mark never clears, over any further reports |
| GameResults.Tracks | src/bnetd/game.c:1731-1803 | A slot with a final result has one that was reported, and a reported final result stands unless the game is bad |
| GameResults.BadLaw | src/bnetd/game.c:1731-1803 | The bad mark is set if and only if some report names a non-player or contradicts a final result given before it, a later "still playing" included |
| GameResults.OrderLaw | src/bnetd/game.c:1731-1803 | All orders of the same reports settle a game alike if and only if they spoil it in every order, or no player is reported both finished and still playing |
| GameResults.GoodOrder | src/bnetd/game.c:1731-1803 | Reports that do not contradict each other leave the game good when the "still playing" ones come first |
| GameResults.SpoiltOrder | src/bnetd/game.c:1731-1803 | The same reports spoil it when a "still playing" comes after a final one |
| GameHistory.SpoiltLaw | src/bnetd/game.c:1731-1803 | With players joining between the reports, a game is bad if and only if some report came after somebody had joined and named one who had not, or contradicted a final result given since that account last joined |
| GameHistory.TracksLife | src/bnetd/game.c:1731-1803 | An account's slot holds a final result only if it was reported since the account last joined, and one reported stands unless the game is bad |
| GameHistory.ResultLaw | src/bnetd/game.c:1768-1795 | In a good or a bad game an account's slot holds the first win, loss, draw, disconnect or observer reported since it last joined; without one "still playing" if that was reported, and else nothing |
| GameHistory.LifeSticks | src/bnetd/game.c:1731-1803 | Whoever joins and whatever is reported, players keep their slots, final results stay and the bad mark stays |
| GameHistory.StepPast | src/bnetd/game.c:1412-1895 | Every operation does to a game's players, results and mark what its join or its report does, and nothing if it is neither |
| GameHistory.LifeLaw | src/bnetd/game.c:1412-1895 | In every run the players, results and mark of a game are the replay of the joins and reports in it |
| GameHistory.GameLaw | src/bnetd/game.c:1412-1895 | In every run from before the game was made: its players are those who joined, it is bad if and only if some report in its life was a conflict, and everybody's last slot says what was reported since that player last joined |
| GameReport.Slots.Compact | src/bnetd/game.c:636-663 | The in-place compaction moves the real players to the front of all four arrays, in order, together, and blanks the rest |
| GameReport.KeptLaw | src/bnetd/game.c:636-663 | What is kept are, in order, exactly the slots with a player and a result |
| GameReport.HowManyCharged | src/bnetd/game.c:674-789 | Everybody is charged once, except that a normal game charges only the first of its disconnects |
| GameReport.CounterLaw | src/bnetd/account_wrap.c:741-836 | Every counter rises by the number of times it was charged, modulo 2 to the 32 |
| GameReport.StoredLaw | src/bnetd/account_wrap.c:741-766 | A counter that is charged is stored with the account: its stored value, or that of the default account, or zero, and the number of charges, modulo 2 to the 32; no other counter is touched |
| GameReport.RiseLaw | src/bnetd/game.c:674-789 | One counter at a time: wins rise by the account's winning slots, draws by its drawn ones, losses by its lost ones and, where disconnects are losses, its disconnects; disconnects by its other slots with a result, and by its disconnects on a ladder, or one in a normal game that it was the first to leave; nothing rises for bad and Diablo games and in other records |
| GameReport.Conservation | src/bnetd/account_wrap.c:1083-1178 | For each client tag and ladder, the total of the counters over any accounts that include the players rises by exactly the number of charges to it while none of its counters wraps |
| GameReport.OwnRecord | src/bnetd/game.c:674-789 | A game charges the counters of its own client tag and ladder and no others |
| GameReport.ReportConserves | src/bnetd/game.c:607-789 | A good game raises the total of its own record's wins, losses, draws and disconnects by its real players less the uncharged disconnects, and of every other record by nothing; a bad game raises nothing |
| GameReport.SettledCounts | src/bnetd/game.c:607-789 | A report charges counters of its own record only, one for each real player of a good game less the uncharged disconnects |
| GameLedger.RunConserves | src/bnetd/game.c:581-789 | Over every run of joins, reports, departures and disconnections, the wins, losses, draws and disconnects of a record rise together by exactly what the games of that record count when they close, while none of its counters wraps |
| GameLedger.RunGains | src/bnetd/game.c:581-789 | Over every run each counter of each account rises by exactly what the slots of the games give that close in it, ladder games counting for ladder 1, ironman games for ladder 3 and others for none |
| GameLedger.BillsCount | src/bnetd/game.c:1641-1728 | What a run charges to a record is what the closings of that record's games count, all of it to accounts that were in a game or connected |
| GameReport.Ledger.Add | src/bnetd/account_wrap.c:741-766 | One counter of one account, for one client tag and ladder, rises by one, read with the default account's value if it has none |
| GameReport.Ledger.ChargeOne | src/bnetd/game.c:676-787 | One slot is charged to the game's own record, as its result, the kind of game, its option and an earlier disconnect say |
| GameReport.Ledger.ChargeAll | src/bnetd/game.c:674-789 | The loop over the real players makes exactly the specified charges |
| GameReport.Ledger.Report | src/bnetd/game.c:581-789 | The whole report in place: every counter of every account rises by what its slots give, real players come first and the rest is blank, and it goes on exactly if there is something to write |
| GameModel.FirstLiveMeaning | src/bnetd/game.c:93-132 | The host chosen is in the first live slot |
| GameModel.DropFindsOwn | src/bnetd/game.c:1687-1692 | With one connection per account the slot dropped by account is the connection's own |
| GameModel.FindGameMeaning | src/bnetd/game.c:2087-2101 | The game found is the first with the name and the type; if none is found none has both |
| GameModel.DepartedLeaves | src/bnetd/game.c:1687-1722 | Seen from outside, leaving clears the connection in its own slot and keeps all else of the game, or closes the game if nobody else was in it; no other game changes |
| GameModel.DepartedKeepsInv | src/bnetd/game.c:1641-1728 | Leaving keeps the invariant; the last one out closes the game |
| GameModel.SeatedKeepsInv | src/bnetd/game.c:1412-1638 | Joining, accepted or refused, keeps the invariant |
| GameModel.SetGameKeepsInv | src/bnetd/connection.c:1801-1848 | Changing game keeps the invariant, including a game whose maker is refused and that stays listed without players |
| GameModel.StepKeepsInv | src/bnetd/game.c:93-1895 | Every operation keeps it: ref is the number of live slots, the owner is in the first of them, a connection's game field and its one live slot agree both ways, a game that ever had a player still has one |
| GameModel.RunKeepsInv | src/bnetd/game.c:93-1895 | The invariant holds in every state of every run |
| GameModel.EmptyInv | src/bnetd/game.c:2059-2064 | It holds without games and connections |
| GameLaws.SetGameLaw | src/bnetd/connection.c:1801-1848 | One who asks for a game by another name ends in the new last slot of a game of that name, or in none if and only if that game is of another type or refuses, or a new one would; nobody else moves |
| GameLaws.AnswerLaw | src/bnetd/connection.c:1823-1845 | The answer is a failure if and only if a game of the right type, found or new, refuses; one who asks for the name of a game of another type is answered success and is in no game |
| GameLaws.EntryLaw | src/bnetd/game.c:1412-1507 | Who asks for the name of a listed game is let in if and only if the type is the same or any, the version is 0, 1, 3, 4 or 104, a ladder game finds ten wins, and the passwords are equal ignoring case; a name nobody has makes a game if version and wins suffice; and which of those who are not let in are told so |
| GameLaws.StayLaw | src/bnetd/connection.c:1801-1812 | Asking for the game one is in, whatever the case of the name, is answered success and changes nothing |
| GameLaws.LadderLaw | src/bnetd/game.c:1412-1507 | Whoever gets into a game, found or new, has a known version, its password and, for a ladder game, ten wins |
| GameLaws.ListedFirst | src/bnetd/game.c:404-520 | A new game is listed in front of those that are left |
| GameLaws.LeavingLaw | src/bnetd/game.c:1641-1728 | Who leaves is in no game and only its seat becomes free, the game going with the last one; a disconnection is that, and the connection is forgotten |
| GameLaws.ExpireLaw | src/bnetd/game.c:2190-2209 | A listed game without players goes and any other stays; the rest of the list keeps its order |
| GameLaws.OwnReportLaw | src/bnetd/game.c:1806-1895 | A player's own report of a final result stores its texts in the last slot of the account, leaves the texts of all others, and counts like a report by others; every other own report changes nothing |
| Games.Game.ChooseHost | src/bnetd/game.c:93-132 | The owner is the first live slot's connection, or unchanged if there is none |
| Games.Game.AddPlayer | src/bnetd/game.c:1412-1638 | Refused exactly for an unknown version, a short ladder record or a wrong password, which `GameLaws.EntryLaw` spells out; else all five arrays and the counts grow by the new player and the host is chosen again |
| Games.Game.FindSlot | src/bnetd/game.c:1687-1692 | The slot found is the first live one of the account |
| Games.Game.Vacate | src/bnetd/game.c:1690-1720 | The slot stays, without its connection, and the count of live slots drops by one |
| Games.Game.CheckResult | src/bnetd/game.c:1731-1803 | Results and bad mark after a report are as specified; it fails exactly for no result or before anybody has joined, not for a conflict |
| Games.Game.SetResult | src/bnetd/game.c:1806-1895 | A final report of a player in the game stores its texts in the account's last slot, counts as a report and succeeds; any other fails and changes nothing |
| Games.Game.LastSlot | src/bnetd/game.c:1768-1775 | Of several slots of an account the last one counts |
| Games.Server.LeaveGame | src/bnetd/connection.c:1813-1822 | The whole state after leaving, and what the accounts are charged if that closed the game |
| Games.Server.ReportGame | src/bnetd/game.c:581-789 | Closing a game makes exactly the charges of its report, by the game's tag, type and option |
| Games.Server.FindGame | src/bnetd/game.c:2087-2101 | The traversal finds what is specified |
| Games.Server.CreateGame | src/bnetd/game.c:404-520 | A new game is listed first, without players |
| Games.Server.EnterGame | src/bnetd/connection.c:1823-1845 | Found or made, the game entered and the whole state are as specified; it fails exactly if that game refuses |
| Games.Server.SetGame | src/bnetd/connection.c:1801-1848 | The whole state and the answer after a game change are as specified, with its charges, and the invariant holds; whoever gets into a ladder game has ten wins with its client when its old game has been closed; a join of the same game changes nothing |
| Games.Server.MoveTo | src/bnetd/connection.c:1801-1848 | Leaving the old game and finding or making the new one leave the whole state as specified, with exactly the charges of the leaving and the answer of the entering |
| Games.Server.ReportResult | src/bnetd/game.c:1731-1803 | A report about a player is the specified step and answer and keeps the invariant |
| Games.Server.ReportOwnResult | src/bnetd/game.c:1806-1895 | A player's own report is the specified step and answer and keeps the invariant |
| Games.Server.ExpireGame | src/bnetd/game.c:2190-2209 | Only a game without players goes, and the invariant stays |
| Games.Server.CloseClient | src/bnetd/connection.c:393-560 | The game part of destroying a connection is the specified step, with its charges, and keeps the invariant |
| LadderRating.RatingLaw | src/bnetd/account_wrap.c:1209-1215 | From any rating and after any adjustments, the rating is all along the largest of the plain sum and of what a run of the latest adjustments gives from the floor of 1, if and only if none passes 32 bits |
| LadderRating.HighLaw | src/bnetd/account_wrap.c:1217-1222 | The high rating is the larger of what it was and the best rating on the way |
| LadderRating.Standing.Adjust | src/bnetd/account_wrap.c:1195-1225 | One adjustment in place keeps both in step with the whole series |
| Quota.Effective | src/bnetd/prefs.c:812-870 | Whatever is configured, the setting used is the nearest that its bounds allow, and a quota time over ten is sixty |
| Quota.Weight | src/bnetd/connection.c:3003-3006 | A line weighs its length in wrapped lines, rounded up, and at least one |
| Quota.WindowSafety | src/bnetd/connection.c:2961-3031 | However lines are timed, those accepted within any stretch of one quota time weigh less than the quota |
| Quota.VerdictLaw | src/bnetd/connection.c:3003-3029 | The verdict from the lines alone: with the weight of all lines of allowed length less than a quota time older, its own included, a line is accepted if and only if that is below the quota, throws its sender out if and only if it also reaches the abuse limit, and is refused otherwise |
| Quota.PurgeIsExact | src/bnetd/connection.c:2977-2995 | Stopping the purge at the first young entry leaves exactly the entries younger than the quota time |
| Quota.YoungAgain | src/bnetd/connection.c:2977-2995 | What an earlier purge dropped a later one would have dropped too |
| Quota.LineQuota.QuotaExceeded | src/bnetd/connection.c:2961-3031 | The verdict on a line is the one due from the weight of the lines themselves, the list is exactly what is young, the running total is its weight and never underflows, and stays below a hundred until somebody is thrown out |
| LoginList.FirstSession | src/bnetd/bits_login.c:286-296 | The first entry with the session id, or none |
| LoginList.FirstNamed | src/bnetd/bits_login.c:298-313 | The first entry with the name, ignoring case, or none |
| LoginList.WalkIsList | src/bnetd/bits_login.c:102-104 | Following the links forward or backward from any node gives the list in order and then its end |
| LoginList.LinksAreInverseAndAcyclic | src/bnetd/bits_login.c:102-135 | No walk comes back to its start, and every walk is undone by one the other way |
| LoginList.SessionIdLaw | src/bnetd/bits_login.c:278-284 | Two listed logins share a session id if and only if their draws are a whole cycle of ids apart |
| LoginList.LogoutRemovesOne | src/bnetd/bits_login.c:124-147 | Until ids start over, nobody has id 0 and logging out by session id takes out that one login and no other |
| LoginList.LogoutLaw | src/bnetd/bits_login.c:124-147 | At any time a logout takes out the first listed login with the session id, if there is one, and no other; the rest keeps its order |
| LoginList.StoredLaw | src/bnetd/bits_login.c:78-122 | A login whose uid is listed changes nothing; any other comes in front of the list with its own host, client, address and port, the next session id, and its name cut to the field, under which it is then the first to be found |
| LoginList.LoginList.constructor | src/bnetd/bits_login.c:58-59 | The list starts empty and the ids at 1 |
| LoginList.LoginList.Add | src/bnetd/bits_login.c:78-122 | Refused exactly if the uid is listed; else the login is in front, its name cut to the field, and links and uids stay right |
| LoginList.LoginList.PushFront | src/bnetd/bits_login.c:102-118 | The new node is linked in front both ways |
| LoginList.LoginList.Unlink | src/bnetd/bits_login.c:130-135 | The neighbours are linked to each other both ways, at either end too |
| LoginList.LoginList.Del | src/bnetd/bits_login.c:124-147 | Exactly the first entry with the session id goes |
| LoginList.LoginList.BySessionid | src/bnetd/bits_login.c:286-296 | Finds the first entry with the session id |
| LoginList.LoginList.ByName | src/bnetd/bits_login.c:298-313 | Finds the first entry with the name, ignoring case |
| LoginList.LoginList.FreeSessionid | src/bnetd/bits_login.c:278-284 | The counter's id, never 0, and the counter one further in 32 bits |
| LoginList.LoginList.Login | src/bnetd/handle_bits.c:575-580 | A login request is the specified step; the id is drawn even if the user is refused |
| LoginList.LoginList.Logout | src/bnetd/handle_bits.c:624-629 | A logout is the specified step |
| LoginList.LoginList.SetPlayerinfo | src/bnetd/bits_login.c:149-167 | Only the first entry with the session id changes |
| BitsAddress.SearchLaw | src/bnetd/bits.c:115-145 | The search stays in the dynamic range, and its result is free if and only if one of the addresses within reach is |
| BitsAddress.SearchFinds | src/bnetd/bits.c:115-145 | With no more hosts than tries the result is free, across the 16-bit wrap |
| BitsAddress.TooMany | src/bnetd/bits.c:125-139 | So many taken candidates need as many hosts |
| BitsAddress.GivenInOrder | src/bnetd/bits.c:115-145 | A master that only ever adds hosts gives the dynamic addresses out in order |
| BitsAddress.AddressLaw | src/bnetd/handle_bits.c:238-257 | Over whole runs the hosts' addresses differ if and only if there are no more hosts than dynamic addresses; the test for no address never fires |
| BitsAddress.Master.NewDynAddr | src/bnetd/bits.c:115-145 | The nested loops end in the specified address, in the dynamic range, and free if there are at most 4096 hosts |
| BitsAddress.Master.Admit | src/bnetd/handle_bits.c:238-247 | Letting a server in gives it that address and lists it |
| BitsFlood.OneNeighbour | src/bnetd/bits_packet.c:261-281 | In a tree a server next to a connected piece has one neighbour in it |
| BitsFlood.ArrivedInv | src/bnetd/handle_bits.c:521-548 | Every arrival keeps it: those who know are a connected piece, under way are exactly the messages across its border, once each, and all who know should |
| BitsFlood.RunInv | src/bnetd/handle_bits.c:521-548 | So in every state of every run |
| BitsFlood.FloodLaw | docs/README.bits:118-122 | In whatever order messages arrive the flood stops, no server gets the change twice, the origin never gets it back, and in the end exactly those have it that should |
| BitsFlood.LockedChainIsReached | docs/README.bits:118-122 | A server whose whole chain of uplinks holds its lock hears of every change |
| BitsFlood.Server.SendForAccount | src/bnetd/bits_packet.c:261-281 | The loop over all connections queues the packet on the uplink and on those that hold the lock, except where it came from, and on no other |
| BitsFlood.Server.SendSetAttr | src/bnetd/bits_va.c:335-357 | What one server queues are exactly its messages in the flood |
| FieldSplitter.JoinSplit | src/bnetd/game_conv.c:1001-1029 | Joining the fields gives back the text |
| FieldSplitter.SplitJoin | src/bnetd/game_conv.c:1001-1029 | Fields without delimiters are what their joined text splits into, so the split is the only one |
| FieldSplitter.SplitCounts | src/bnetd/game_conv.c:1001-1029 | There is one field more than delimiters, empty ones included, and no field holds one |
| FieldSplitter.StrPBrk | src/bnetd/game_conv.c:1018-1018 | The scan stops at the first delimiter before the terminator |
| FieldSplitter.Tokenizer.BlankStrtok | src/bnetd/game_conv.c:1001-1029 | A call returns the token at the saved place, cuts it at its first delimiter and saves the place behind, or nothing after the last field |
| FieldSplitter.Tokenizer.Strtok | src/bnetd/game_conv.c:865-876 | The library tokenizer the lines are split with: delimiters in front are skipped |
| FieldSplitter.OneMoreField | src/bnetd/game_conv.c:1001-1029 | After each call the next field has come out and what is saved splits into the rest, all earlier tokens still reading as they did |
| FieldSplitter.ReadFields | src/bnetd/game_conv.c:880-939 | One call after the other gives the first fields of the pure split, in place, and nothing behind the line is touched |
| FieldSplitter.FirstPiece | src/bnetd/game_conv.c:865-876 | Skipping delimiters and cutting at the next gives the fields without the empty ones |
| FieldSplitter.FirstTwoLines | src/bnetd/game_conv.c:865-876 | The first two non-empty lines, both still readable in the buffer |
| FieldSplitter.MissingFieldLaw | src/bnetd/game_conv.c:880-939 | Field n is reported missing if and only if there are two lines and the first has n - 1 commas, fewer than nine |
| FieldSplitter.ParseInfo | src/bnetd/game_conv.c:859-941 | For every text the outcome is the missing line or field, or the ten fields and the map's name |
| FieldSplitter.InfoLaw | src/bnetd/game_conv.c:859-941 | Which texts have which outcome: no line that is not empty; only one; too few commas in the first, and which field is then the missing one; or ten fields, which joined by commas are the start of the first non-empty line, and the second as the map's name |

## Left out

- Channels.Server.Login: a login to an account in use destroys the other connection at once; the code marks it and
  destroys it on its next turn (src/bnetd/server.c:1455), and until then both exist. What that time can break is that
  nobody is in a channel that bans them (`NobodyBanned`): a ban may find the new connection and leave the marked one
  where it is (`WindowLaw`). The account is listed and answers to its own name, which a name of # and a number need
  not do, and a connection logs in once, outside any channel.
- ChannelCommands.LoginLaw: states the takeover with the same immediate destruction.
- Games.Server.ConnectClient: games see such a takeover as two steps, `CloseClient` for the old connection and then
  this for the new one.
- Of a connection's flags only the operator's is modelled, and of the text after /flag the number it reads as.
- Entering a channel first leaves the game; in the model the caller takes that step in `Games`, separately.
- A player who joins a game can change its options with the game information it sends; the model fixes type and
  option when the game is made. A connection's client tag is fixed too, and tags are compared exactly.
- Games.Server.ReportGame: compacts copies of the arrays that the game grew, because the model keeps the growing
  arrays as sequences.
- Member, attribute, account, channel, game and connection lists are sequences that methods reassign or edit in
  place by position; links between list nodes are modelled for the login list, the doubly linked one.
- Memory never runs out, and of file errors only an unreadable account file and a failed write are modelled.
- Text buffers of fixed size: names are cut in the login list only; /kick and /ban cut the name they are given to 15
  characters, which no accepted name exceeds. Counts, ages, sizes and channel ids do not
  wrap; 32-bit arithmetic is modelled where the code relies on it: hashes, number parsing, the counters of
  wins, losses, draws and disconnects, ratings, session ids and addresses.
- How much a rating changes after a game, ranks, last results and times, and the text of report files.
- Accounts: virtual accounts and locking for BITS, reading the directory of account files, the default account as
  a file of its own (its attributes are a parameter).
- Reloading the channel file while the server is running, channel messages, logging, welcome texts, watch lists,
  realms as anything but a name, character names.
- conn_add_ignore, conn_del_ignore and conn_check_ignoring, the routing table and the channel list of a BITS
  connection: first-match scans that would add only easy members.
- Quota: the switch that turns the quota off (every line is then accepted) and the preference file. The clock is
  a parameter that never goes back, and the settings do not change during a run.
- AccountStore.UploadLaw: the copy on the asking server is taken to be empty, and packets to have room for every key
  and value; the code cuts what it reads of them to a length.
- BITS: handshakes, queries, remote channels and games, and the locklist as a list. The flood takes the set of
  locks as given and constant while one change spreads, over a tree; adding an entry to the locklist does not
  link it back, which the model does not have.
- Parsing of the fields of game information once they are split, and other forms of game information.
- Sockets, packets and byte order.
