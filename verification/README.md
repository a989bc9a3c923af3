# A verified model of the MF/EMF query compiler and the MySQL X connector

The repository holds a compiler for MF and EMF queries (`lib/`) and the MySQL X connector it uses
(`mysqlconnector/`). This project models the parts in which most can go wrong and proves what they
compute. Each part has a specification made of functions on values, imperative Dafny where the
source updates things in place, proved against that specification, and lemmas about the
specification. `dafny verify dfyconfig.toml` checks everything.

| files | part |
|---|---|
| `ExprSyntax`, `ExprGrammar`, `ExprProgress`, `ExprStorage`, `ExprParser`, `ExprPrinter`, `ExprRoundTrip` | the expression parser: a reference grammar, the stored form of expressions, the parser objects that report or store, and the printer whose output is parsed back |
| `DocPath`, `DocPathParser` | document paths |
| `TokenSyntax`, `TokenGrammar`, `Tokenizer` | the tokenizer and a lexical grammar that does not depend on it |
| `JsonSyntax`, `JsonBuilder`, `JsonParser` | the JSON parsers and the document builder |
| `UriSyntax`, `UriParser`, `UriProgress`, `UriRoundTrip`, `UriHosts`, `UriPlain` | connection strings and their parser with its stack of states |
| `Settings`, `SettingsShape`, `Setter`, `DataSource`, `SettingsHistory` | session settings as transactions, and the data source and the connection options derived from them |
| `ReplyMessages`, `ReplySession`, `RowCache` | replies, cursors and the row cache, at the level of protocol messages |
| `GroupTables`, `GroupScan`, `GroupConditions` | the meaning of MF and EMF queries and the emitted program |
| `Decimal` | packed DECIMAL values |
| `Explode` | splitting of text and names of aggregates |
| `Wrappers` | the optional value all of them use |

## Main results

- Parsing an expression with a processor and replaying a parse without one agree for every token
  sequence, level and mode (`ExprParser.ParseBothWays`), and every printable tree, in every
  way in which it can be written, is parsed back in both modes (`ExprRoundTrip.ParsePrint`).
- Runs of setter transactions keep the shape of the option list, with the exact steps that break it,
  and every run keeps the consistency of the security options (`SettingsShape.RunShape`,
  `RunSecure`), and the data source is exactly what the list describes (`DataSource.GetDataSource`).
  The connection options are what the committed transactions set last (`SettingsHistory.OptionsOfRun`).
- Every interleaving of calls on a session keeps the state of the conversation
  (`ReplySession.Session.Valid`), and the rows a caller gets are the accepted rows of all result sets
  (`RowCache.ReadReply`, `RowCache.Result.TakeAll`).
- The emitted program shows the declarative grouped aggregates (`GroupScan.Evaluate`,
  `AnswersAreAnswered`, `GroupTables.CellMeaning`), and the lookup scan agrees with the nested loop
  (`GroupConditions.WrittenEqualityIsLookup`).
- Exactly the printable JSON documents are read back (`JsonSyntax.JsonRoundTrip`,
  `JsonParser.PrintAndParse`), and a printed URI exactly if its hosts are good
  (`UriRoundTrip.PrintAndParse`). A failed attempt of the URI parser to read credentials, an address
  or a word restores its state (`UriParser.Parser.ParseUserInfo`, `ParseIpAddress`, `ConsumeWord`), and
  the tokenizer finds exactly the tokens of the lexical grammar (`TokenGrammar.TokensAreLexed`,
  `Tokenizer.Tokenize`).
- `Decimal.DecodesExactly`, `Explode.ExplodeInvertsJoin` and `Explode.AggregateRoundTrip` say exactly
  for which inputs decoding and splitting are right.

## What does not hold

Where the code does not do what its comments or its callers expect, the model follows the code. Each
case has a lemma that says exactly when the code meets the expectation, or gives the family of
inputs for which it does not.

- The name of a function is a reference into the column reference that its arguments overwrite, so
  `POSITION(column IN x)` is rejected, and so is `POSITION(field IN x)` in DOCUMENT mode
  (`ExprRoundTrip.PositionCall`, `PositionOfPrinted`, `PositionOfColumn`, `PositionOfName`).
- `left_assoc_binary_op` makes operators of one level group to the right: `a - b - c` is `a - (b - c)`
  (`ExprRoundTrip.Grouping`). `IS FALSE` is reported as `IS TRUE` (`IsReports`). In DOCUMENT mode the
  dot after a first word is lost if no word follows: `a.*b` is a product and `a."b"` an error
  (`DotBeforeNoWord`, `StarIsProduct`).
- A SOCKET that follows a bare PORT is committed and later fails an assertion, a committed bare PORT
  makes all later transactions fail, and the numbers 0 for SSL_MODE and AUTH are committed although
  they are no mode and no method (`SettingsShape.ShapeOfTransaction`, `PortOnlyIsFinal`,
  `DataSource.SocketAfterPort`, `ModeZero`, `AuthZero`); these and a missing connection are all that
  makes the walk fail an assertion (`ZeroFails`, `AssertsExactly`). Unsetting a SOCKET that is set
  leaves its PRIORITY and the count of hosts behind (`SettingsShape.EraseGood`,
  `DataSource.OrphanedPriority`).
- With implicit priorities, 100 hosts can be added, not 101: the 101st has priority 0, which does not
  mix with the others (`DataSource.HundredHosts`, `CollectedAll`).
- In a URI, the priority 65535 is reported as no priority and a list that consists of a port alone is
  an IPv6 address (`UriRoundTrip.UriIsReadBack`, `TopPriorityIsLost`, `PortOnlyListIsV6`). A host in
  plain characters that a port follows loses a dot after one to three leading groups of digits if no
  digit follows the dot, and ends after a fourth group: `mysqlx://10.example:33060` is the host
  `10example`, and `mysqlx://1.2.3.4x:80` is an error (`UriPlain.PlainUriIsRead`, `DotIsLostInUri`,
  `FourthGroupEnds`, `UriHosts.PlainHostIsRead`). If `(address` in a host list is not followed by `=`,
  reading goes on after the parenthesis: `[(address)]` is the host `address)` and not an error
  (`UriHosts.EntryResumes`, `StrayIsHost`, `StrayEntry`).
- The comment on the structure of a reply allows a missing result set anywhere after the first. The
  receiver gives up after a missing one that is not the last (`ReplySession.Session.Discard`,
  `DropAll`, `TidyNeverJams`). What follows it stays unread: discarding the reply once more succeeds
  without reading anything, and the next command gets the rest of the old reply for its answer
  (`ReplySession.Session.Begin`, `RowCache.ReadAfterGap`).
- `load_cache(0)` returns false when no rows were pending, even if there are rows in the cache; its
  comment promises true (`RowCache.Result.LoadCache`).
  `get_row` returns nothing when a filter rejects a whole batch (`RowCache.Result.GetRow`).
- A scalar does not replace an earlier value of its key in a JSON document, while an array or a
  document does (`JsonBuilder.KeyRule`). 2^63 with a plus sign or none is refused, although larger
  unsigned integers are read (`JsonSyntax.IntegerIsRead`).
- Accumulators start at 0, so maximum and minimum include 0 (`GroupTables.TrueMaximum`,
  `TrueMinimum`). A condition on an aggregate never holds for the first key
  (`GroupConditions.AggregateCondition`, `FirstKeyStaysZero`), and in EMF queries a condition with a
  constant tests the representative of the group (`ConstantsTestTheGroup`).
- An odd number of packed digits with scale 1 is shown without its decimal point
  (`Decimal.DecodesExactly`).

## Model

| member | source | states |
|---|---|---|
| `DocPath.AcceptedIsValid` | mysqlconnector/cdk/parser/expr_parser.cc:560-943 | every accepted document field is a path that does not start with an array step and does not end in `**` |
| `DocPath.MoreStepsValid` | mysqlconnector/cdk/parser/expr_parser.cc:675-860 | the steps after the first one never end in `**`, whatever the tokens |
| `DocPath.PathRoundTrip` | mysqlconnector/cdk/parser/expr_parser.cc:560-943 | parsing inverts printing for every valid path, with any tokens after it that do not continue the path |
| `DocPathParser.StoreReported` | mysqlconnector/cdk/parser/expr_parser.cc:560-860 | a stored path is the path whose callbacks it received |
| `DocPathParser.Parser.MoreSteps` | mysqlconnector/cdk/parser/expr_parser.cc:675-860 | the loop over steps accepts exactly the steps of the path grammar and reports them in order, or fails at the same token |
| `DocPathParser.Parser.DocumentPath` | mysqlconnector/cdk/parser/expr_parser.cc:675-860 | one balanced begin/end pair around the elements of the path, or, on a false return, no callback and no token consumed |
| `DocPathParser.Parser.DocumentField` | mysqlconnector/cdk/parser/expr_parser.cc:560-582 | `$` with an optional path, or a path: the same result, rest and failures as the grammar |
| `DocPathParser.Parser.FieldWithPrefix` | mysqlconnector/cdk/parser/expr_parser.cc:584-672 | a field whose first members were already read is the path of those members and the steps that follow |
| `ExprProgress.CursorMovesForward` | mysqlconnector/cdk/parser/expr_parser.h:1573-1612 | every successful parse of an expression at any level leaves a proper end of its tokens: it consumes at least one token and never moves the cursor back |
| `ExprProgress.LevelForward` | mysqlconnector/cdk/parser/expr_parser.cc:1388-1527 | the recursion through all levels terminates on every token sequence under the measure (tokens left, level rank), and what is left is an end of what was given |
| `ExprProgress.IlriForward` | mysqlconnector/cdk/parser/expr_parser.cc:1548-1766 | the same for IS, IN, LIKE, RLIKE, REGEXP, BETWEEN and their negations |
| `ExprProgress.AtomicForward` | mysqlconnector/cdk/parser/expr_parser.cc:1057-1380 | the same for atomic expressions, through parentheses, calls, arrays and documents |
| `ExprProgress.FunctionForward` | mysqlconnector/cdk/parser/expr_parser.cc:322-430 | the same for calls and their special arguments |
| `ExprProgress.CastForward` | mysqlconnector/cdk/parser/expr_parser.cc:163-297 | the same for CAST |
| `ExprProgress.KeyValsForward` | mysqlconnector/cdk/parser/parser.h:548-681 | the same for key-value lists |
| `ExprProgress.ElementsForward` | mysqlconnector/cdk/parser/parser.h:390-545 | the same for element lists |
| `ExprProgress.FieldForward` | mysqlconnector/cdk/parser/expr_parser.cc:560-943 | the same for document fields |
| `ExprStorage.StoreEvents` | mysqlconnector/cdk/parser/expr_parser.h:1077-1567 | a storage that receives the callbacks of any tree ends up as the stored form of that tree and leaves the callbacks after it |
| `ExprStorage.ReplayIsEvents` | mysqlconnector/cdk/parser/expr_parser.h:1077-1567 | replaying any stored expression makes exactly the callbacks of the tree it holds |
| `ExprStorage.StoredMeaning` | mysqlconnector/cdk/parser/expr_parser.h:1077-1567 | storing keeps the meaning of every tree, documents being maps in which the last value of a key wins |
| `ExprStorage.InsertSorted` | mysqlconnector/cdk/parser/expr_parser.h:1157-1198 | the map of a stored document keeps its keys sorted and distinct |
| `ExprStorage.LessIsTotalOrder` | mysqlconnector/cdk/parser/expr_parser.h:1157-1198 | the order of the keys is a strict total order |
| `ExprParser.Parser.Parse` | mysqlconnector/cdk/parser/expr_parser.h:1573-1612 | any level with or without a processor follows the grammar: same tree, same rest, same failing position; without a processor the result is stored |
| `ExprParser.Parser.ParseBitNeg` | mysqlconnector/cdk/parser/expr_parser.cc:1477-1503 | the prefix `~` of the bit level |
| `ExprParser.Parser.ParseInfix` | mysqlconnector/cdk/parser/expr_parser.cc:1388-1527 | binary operators of a level: the right operand re-enters the level, and the operator is reported before its stored left operand |
| `ExprParser.Parser.ParseIlri` | mysqlconnector/cdk/parser/expr_parser.cc:1548-1766 | the ILRI level follows the grammar, with the first argument stored and replayed |
| `ExprParser.Parser.ParseIlriTail` | mysqlconnector/cdk/parser/expr_parser.cc:1594-1766 | the part after the ILRI operator |
| `ExprParser.Parser.ParseMatch` | mysqlconnector/cdk/parser/expr_parser.cc:1702-1745 | LIKE, RLIKE, REGEXP and IN without a list |
| `ExprParser.Parser.ParseInList` | mysqlconnector/cdk/parser/expr_parser.cc:1702-1722 | IN with a list of expressions |
| `ExprParser.Parser.ParseIs` | mysqlconnector/cdk/parser/expr_parser.cc:1679-1700 | IS [NOT] TRUE, FALSE, NULL; TRUE and FALSE are both reported as true |
| `ExprParser.Parser.ParseBetween` | mysqlconnector/cdk/parser/expr_parser.cc:1746-1766 | BETWEEN with its two bounds |
| `ExprParser.Parser.ParseAtomic` | mysqlconnector/cdk/parser/expr_parser.cc:1057-1380 | atomic expressions, stored when there is no processor |
| `ExprParser.Parser.ParseLiteral` | mysqlconnector/cdk/parser/expr_parser.cc:1130-1290 | literals and signed numbers |
| `ExprParser.Parser.ParseUnary` | mysqlconnector/cdk/parser/expr_parser.cc:1130-1205 | unary operators |
| `ExprParser.Parser.ParseCast` | mysqlconnector/cdk/parser/expr_parser.cc:163-297 | CAST |
| `ExprParser.Parser.ParseSchemaIdent` | mysqlconnector/cdk/parser/expr_parser.cc:434-472 | names with an optional schema |
| `ExprParser.Parser.ParseIdent` | mysqlconnector/cdk/parser/expr_parser.cc:1290-1380 | a name that becomes a call or a column |
| `ExprParser.Parser.ParseColumn` | mysqlconnector/cdk/parser/expr_parser.cc:475-520 | column references |
| `ExprParser.Parser.ParseColumnPath` | mysqlconnector/cdk/parser/expr_parser.cc:511-531 | a column with or without an arrow and a path |
| `ExprParser.Parser.ParseArrowPath` | mysqlconnector/cdk/parser/expr_parser.cc:513-529 | the path after an arrow: a quoted text that must be a path as a whole, split by a parser of its own, or a path as it stands |
| `ExprParser.Parser.ParseFunctionCall` | mysqlconnector/cdk/parser/expr_parser.cc:322-376 | calls |
| `ExprParser.Parser.ParseCallTail` | mysqlconnector/cdk/parser/expr_parser.cc:340-430 | what follows the first argument of a call, with the aliasing of the function name |
| `ExprParser.Parser.ParseArgs` | mysqlconnector/cdk/parser/expr_parser.cc:1810-1826 | argument lists |
| `ExprParser.Parser.ParseArr` | mysqlconnector/cdk/parser/expr_parser.cc:1826-1845 | arrays |
| `ExprParser.Parser.ParseElements` | mysqlconnector/cdk/parser/parser.h:390-414 | array elements |
| `ExprParser.Parser.ParseDoc` | mysqlconnector/cdk/parser/expr_parser.cc:1845-1870 | documents |
| `ExprParser.Parser.ParsePair` | mysqlconnector/cdk/parser/parser.h:640-681 | a key-value pair |
| `ExprParser.Parser.ParseKeyVals` | mysqlconnector/cdk/parser/parser.h:390-414 | key-value lists |
| `ExprParser.InfixDelivers` | mysqlconnector/cdk/parser/expr_parser.cc:1388-1448 | reporting an infix operator around a stored left operand delivers that operator applied to both operands, with a processor and without |
| `ExprParser.DirectAndReplayed` | mysqlconnector/cdk/parser/expr_parser.h:757-768 | a direct report and the replay of what was stored for the same tree mean the same |
| `ExprParser.ParseBothWays` | mysqlconnector/cdk/parser/expr_parser.h:757-768 | for every mode, level and token sequence, parsing with a processor and replaying a parse without one give the same failure, or the same rest and the same expression |
| `ExprParser.Process` | mysqlconnector/cdk/parser/expr_parser.cc:143-160 | a whole expression is accepted exactly if the grammar accepts it and no token is left |
| `ExprParser.EmptyIsRejected` | mysqlconnector/cdk/parser/expr_parser.cc:143-160 | nothing to read is an error |
| `DocPath.FreePathRoundTrip` | mysqlconnector/cdk/parser/expr_parser.cc:560-582 | a path without `$` is read back where none is asked for, and refused where it is |
| `ExprRoundTrip.SpellingIsRead` | mysqlconnector/cdk/parser/expr_parser.h:142-185 | every token of the table of spellings (`&&` and AND, `||` and OR, `%` and MOD, `=` and `==`, `!=` and `<>`) is read as its operator, at its level |
| `ExprRoundTrip.RoundTripAt` | mysqlconnector/cdk/parser/expr_parser.cc:1057-1766 | writing any printable tree in any style (spellings of operators, quoting of names and texts, notation of numbers, `$` or not, needless parentheses) at any level and parsing it at that level, with any rest that cannot continue it, returns the tree and the rest |
| `ExprRoundTrip.Lift` | mysqlconnector/cdk/parser/expr_parser.cc:1388-1527 | what parses at a level parses the same at a looser level if no operator in between follows |
| `ExprRoundTrip.RoundTripBinary` | mysqlconnector/cdk/parser/expr_parser.cc:1388-1527 | binary operators, parenthesised only where the levels need it |
| `ExprRoundTrip.Grouping` | mysqlconnector/cdk/parser/expr_parser.cc:1388-1527 | for all operators, spellings and atoms: in `a op1 b op2 c` the operator that binds tighter takes its operands first, and operators of the same level group to the right |
| `ExprRoundTrip.RoundTripIlri` | mysqlconnector/cdk/parser/expr_parser.cc:1548-1766 | ILRI operators with all their forms, RLIKE and REGEXP, and IN with and without a list |
| `ExprRoundTrip.RoundTripCall` | mysqlconnector/cdk/parser/expr_parser.cc:322-376 | calls of any name but POSITION, TRIM and CHAR included, with arguments separated by commas |
| `ExprRoundTrip.RoundTripColumn` | mysqlconnector/cdk/parser/expr_parser.cc:475-558 | quoted columns with tables, schemas and paths |
| `ExprRoundTrip.RoundTripField` | mysqlconnector/cdk/parser/expr_parser.cc:1343-1380 | document fields, in DOCUMENT mode |
| `ExprRoundTrip.RoundTripBare` | mysqlconnector/cdk/parser/expr_parser.cc:1343-1380 | document paths without `$`, whose first words are taken for a name at first |
| `ExprRoundTrip.DotBeforeNoWord` | mysqlconnector/cdk/parser/expr_parser.cc:434-474 | in DOCUMENT mode the dot after a first word is lost if no word follows it: the field is the word alone |
| `ExprRoundTrip.StarIsProduct` | mysqlconnector/cdk/parser/expr_parser.cc:434-474 | so `a.*b` is read as the product of `a` and `b` |
| `ExprRoundTrip.NameInAnyCase` | mysqlconnector/cdk/parser/expr_parser.cc:340-430 | POSITION, TRIM and CHAR are recognised without a schema and in any case |
| `ExprRoundTrip.NumeralIsRead` | mysqlconnector/cdk/parser/expr_parser.cc:1233-1259 | every text of an integer or hexadecimal token: a number exactly if it is a numeral up to 2^64 - 1, or 2^63 - 1 after a minus sign |
| `ExprRoundTrip.IndexIsRead` | mysqlconnector/cdk/parser/expr_parser.cc:862-943 | an index of a path is exactly a numeral up to 2^32 - 1 |
| `ExprRoundTrip.RoundTripCast` | mysqlconnector/cdk/parser/expr_parser.cc:163-193 | CAST with any expression and type |
| `ExprRoundTrip.FormIsRead` | mysqlconnector/cdk/parser/expr_parser.cc:211-297 | every type of CAST, with its dimensions and optional words, is read with its text |
| `ExprRoundTrip.RoundTripArray` | mysqlconnector/cdk/parser/expr_parser.cc:1826-1845 | arrays of printable trees |
| `ExprRoundTrip.RoundTripDoc` | mysqlconnector/cdk/parser/expr_parser.cc:1845-1870 | documents of printable trees |
| `ExprRoundTrip.ParsePrint` | mysqlconnector/cdk/parser/expr_parser.cc:1057-1766 | every tree that is printable in a mode, written in any style, is returned by parsing its tokens in that mode, with nothing left |
| `ExprRoundTrip.PositionCall` | mysqlconnector/cdk/parser/expr_parser.cc:322-430 | for all tokens, `POSITION(a IN b)` is accepted if and only if its first argument leaves the name POSITION in the column reference and the rest is well formed, and then it is LOCATE(a, b) |
| `ExprRoundTrip.PositionOfPrinted` | mysqlconnector/cdk/parser/expr_parser.cc:322-430 | for all printable arguments in both modes, it is accepted if and only if the tree of the first argument leaves that name |
| `ExprRoundTrip.PositionOfColumn` | mysqlconnector/cdk/parser/expr_parser.cc:322-430 | with a column as first argument that is the case only if its table is called POSITION; with a document field only if it starts, without `$`, with the word POSITION alone; with a value or a parameter always |
| `ExprRoundTrip.PositionOfName` | mysqlconnector/cdk/parser/expr_parser.cc:322-430 | a name before IN is rejected whatever follows, unless it is a plain word in DOCUMENT mode that is itself POSITION and the rest is well formed |
| `ExprRoundTrip.IsReports` | mysqlconnector/cdk/parser/expr_parser.cc:1679-1700 | IS and IS NOT accept exactly TRUE, FALSE and NULL, and report the value of the literal if and only if it is not FALSE |
| `ExprRoundTrip.IsFalseIsTrue` | mysqlconnector/cdk/parser/expr_parser.cc:1679-1700 | so an expression followed by IS FALSE and by IS TRUE is the same tree |
| `SettingsShape.RunGood` | mysqlconnector/common/settings.h:84-111 | every run that never unsets a SOCKET while one is set commits a list made of whole connection entries, with priorities on all hosts or on none, and flags that agree with it |
| `SettingsShape.ShapeIff` | mysqlconnector/common/settings.h:261-387 | whether a committed list has the promised shape is decided by the count of hosts and its first entry |
| `SettingsShape.WhatSpoils` | mysqlconnector/common/settings.h:289-320 | the exact step that puts a bare PORT next to another connection |
| `SettingsShape.ShapeOfTransaction` | mysqlconnector/common/settings.h:84-387 | a committed transaction keeps the shape if and only if it sets no SOCKET after a bare PORT |
| `SettingsShape.RunShape` | mysqlconnector/common/settings.h:84-387 | runs that never set a SOCKET after a bare PORT commit a lone bare PORT or only HOST PORT? PRIORITY? and SOCKET PRIORITY? entries |
| `SettingsShape.EraseGood` | mysqlconnector/include/mysqlx/common/settings.h:274-314 | erasing SOCKET or an option that is no part of a connection keeps settings good if and only if it is not a SOCKET that is set |
| `SettingsShape.PortOnlyIsFinal` | mysqlconnector/common/settings.h:84-111 | once a bare PORT alone is committed, every later transaction, also one that unsets options, fails and changes nothing |
| `SettingsShape.RunSecure` | mysqlconnector/common/settings.h:393-446 | in every committed state, with or without unsetting, a certificate authority goes with no mode or a verifying mode |
| `Setter.SetterObject.AddOption` | mysqlconnector/common/settings.h:548-591 | the loop appends a repeatable option and replaces any other in place |
| `Setter.SetterObject.SetHost` | mysqlconnector/common/settings.h:261-287 | new state of HOST, or the error |
| `Setter.SetterObject.SetSocket` | mysqlconnector/common/settings.h:289-321 | new state of SOCKET, or the error |
| `Setter.SetterObject.SetPort` | mysqlconnector/common/settings.h:325-349 | new state of PORT, or the error |
| `Setter.SetterObject.SetPriority` | mysqlconnector/common/settings.h:352-389 | new state of PRIORITY, or the error |
| `Setter.SetterObject.SetSslMode` | mysqlconnector/common/settings.h:393-421 | new state of SSL_MODE, or the error |
| `Setter.SetterObject.SetSslCa` | mysqlconnector/common/settings.h:424-447 | new state of SSL_CA, or the error |
| `Setter.SetterObject.SetOption` | mysqlconnector/common/settings.h:595-640 | dispatch over all options |
| `Setter.SetterObject.SetNull` | mysqlconnector/common/settings.h:640-652 | unsetting an option |
| `Setter.SetterObject.Commit` | mysqlconnector/common/settings.h:84-111 | the settings become those of the transaction, or stay as they were |
| `Setter.Transact` | mysqlconnector/common/settings.h:73-111 | a whole transaction computes the specified settings; a failing one leaves them unchanged |
| `Setter.FailureStays` | mysqlconnector/common/settings.h:73-111 | an operation that fails makes the transaction fail |
| `DataSource.NoCaMismatch` | mysqlconnector/common/session.cc:132-172 | options derived from any committed state never trigger the certificate authority mismatch of tls_connect |
| `SettingsHistory.NamesAreRead` | mysqlconnector/common/settings.h:446-535 | a text is taken for a mode or a method if and only if it is the name of one, in any case, and stands for its number |
| `SettingsHistory.FlagsOf` | mysqlconnector/common/settings.h:140-160 | the flags of a setter in terms of the calls of its transaction: what was set last, and what since the last host |
| `SettingsHistory.NextIsAccepted` | mysqlconnector/common/settings.h:255-535 | for every transaction and every next call, exactly when the call is accepted, in terms of the calls before it |
| `SettingsHistory.CommitsExactly` | mysqlconnector/common/settings.h:84-111 | a transaction whose calls were accepted is committed if and only if the settings are not a bare PORT alone and, with priorities, the last host has one |
| `SettingsHistory.ErasedExactly` | mysqlconnector/common/settings.h:640-660 | erasing an option takes out exactly its values and what goes with it |
| `SettingsHistory.RunRemembers` | mysqlconnector/common/settings.h:73-111 | after every run, of every option that can be set once, the settings hold exactly what the committed transactions set last and have not unset since |
| `SettingsHistory.OptionsOfRun` | mysqlconnector/common/session.cc:109-187 | over whole runs: the options throw if and only if no user is set or a socket comes with a mode of at least REQUIRED; else user, password, database, mode, authority and method are those set last, with REQUIRED or VERIFY_CA as default mode and PLAIN as default method exactly on sockets and encrypted sessions |
| `DataSource.MultiSource.Add` | mysqlconnector/cdk/include/mysql/cdk/data_source.h:321-357 | prioritised and unprioritised sources do not mix; a refused source changes nothing |
| `DataSource.ReadEntry` | mysqlconnector/common/session.cc:228-330 | reading one connection entry from the option list meets its assertions and yields its address and priority |
| `DataSource.GetDataSource` | mysqlconnector/common/session.cc:194-344 | from any list of a good run, the hosts of the list in order, or exactly the error or assertion that the list leads to |
| `DataSource.SourceAt` | mysqlconnector/common/session.cc:228-330 | source k has the address of entry k and the given priority, or 100 - k, and a TCP source expects its own host name |
| `DataSource.CollectedAll` | mysqlconnector/common/session.cc:194-344 | what has been collected without an error is addable: at most 100 hosts with implicit priorities, and no mix of zero and non-zero ones |
| `DataSource.SocketAfterPort` | mysqlconnector/common/session.cc:228-330 | a committed list on which the walk fails an assertion |
| `DataSource.ModeZero` | mysqlconnector/common/settings.h:393-421 | SSL_MODE 0 is committed and then fails an assertion |
| `DataSource.AuthZero` | mysqlconnector/common/settings.h:482-494 | AUTH 0 is committed and then fails an assertion |
| `SettingsShape.RunNumbered` | mysqlconnector/common/settings.h:393-421 | every run, with or without unsetting, commits only modes and methods with a number below the last one, and at most one method |
| `DataSource.ZeroFails` | mysqlconnector/common/session.cc:132-172 | after any run, deriving the options without an error fails an assertion if and only if SSL_MODE or AUTH was set to the number 0 |
| `DataSource.HundredHosts` | mysqlconnector/common/session.cc:194-344 | for every user and every list of hosts without priorities: one transaction commits them all, and a data source can be made of them if and only if there are at most 100 |
| `DataSource.AssertsExactly` | mysqlconnector/common/session.cc:194-344 | over whole runs: without an error from the options, an assertion of the walk fails if and only if a mode or method is 0, no connection was given, or a SOCKET followed a bare PORT |
| `DataSource.OrphanedPriority` | mysqlconnector/common/settings.h:640-652 | a run after which a PRIORITY and the count of hosts are left of an unset SOCKET |
| `UriParser.Parser.GetToken` | mysqlconnector/cdk/parser/uri_parser.cc:967-1001 | reads the next character or percent-encoded byte of the top state; throws exactly on an invalid one |
| `UriParser.Parser.Consume` | mysqlconnector/cdk/parser/uri_parser.cc:1048-1056 | takes a token of the given kind or leaves the whole stack as it was |
| `UriParser.Parser.ConsumeWhile` | mysqlconnector/cdk/parser/uri_parser.cc:856-871 | takes the longest run of tokens of a set |
| `UriParser.Parser.ConsumeWord` | mysqlconnector/cdk/parser/uri_parser.cc:1059-1102 | takes a word; a failure restores token, position and depth of the stack |
| `UriParser.Parser.ParseUserInfo` | mysqlconnector/cdk/parser/uri_parser.cc:688-717 | takes credentials; a failure restores token, position and depth of the stack |
| `UriParser.Parser.ParseIpAddress` | mysqlconnector/cdk/parser/uri_parser.cc:550-647 | takes an address with its port; a failure restores token, position and depth of the stack |
| `UriParser.Parser.ParseV6` | mysqlconnector/cdk/parser/uri_parser.cc:556-592 | an IPv6 literal |
| `UriParser.Parser.ParseGroups` | mysqlconnector/cdk/parser/uri_parser.cc:593-620 | up to four groups of digits, as the loop with its continue takes them |
| `UriParser.Parser.ParseBalanced` | mysqlconnector/cdk/parser/uri_parser.cc:655-678 | balanced parentheses to any depth |
| `UriParser.Parser.ParseHost` | mysqlconnector/cdk/parser/uri_parser.cc:422-446 | a host, tried as an address first |
| `UriParser.Parser.ParseOpening` | mysqlconnector/cdk/parser/uri_parser.cc:500-533 | whether a list entry starts with `(address=`; otherwise one state is taken from the stack, which after a matched word is not the first one |
| `UriParser.Parser.ParseListEntry` | mysqlconnector/cdk/parser/uri_parser.cc:494-541 | an entry of a host list with or without a priority |
| `UriParser.Parser.ParseTarget` | mysqlconnector/cdk/parser/uri_parser.cc:372-408 | a host, or a list of hosts read again from the pushed state |
| `UriParser.Parser.ParseConnection` | mysqlconnector/cdk/parser/uri_parser.cc:365-408 | credentials and hosts |
| `UriParser.Parser.ParsePath` | mysqlconnector/cdk/parser/uri_parser.cc:343-354 | the schema |
| `UriParser.Parser.ParseQuery` | mysqlconnector/cdk/parser/uri_parser.cc:737-786 | the key-value pairs of the query |
| `UriParser.Parser.ParseValues` | mysqlconnector/cdk/parser/uri_parser.cc:794-820 | a list of values |
| `UriParser.Parser.Parse` | mysqlconnector/cdk/parser/uri_parser.cc:322-336 | the whole string reports exactly the events of the grammar, or fails |
| `UriRoundTrip.UriIsReadBack` | mysqlconnector/cdk/parser/uri_parser.cc:322-1101 | what is reported for every user, password, host or prioritised host list, port, schema and query, printed as a mysqlx URI with all names percent-encoded; it is exactly those components if and only if ports and priorities fit, a host without a port does not look like a path, and no list consists of a port alone |
| `UriRoundTrip.LexPrinted` | mysqlconnector/cdk/parser/uri_parser.cc:967-1001 | reading inverts percent-encoding (section 2.1 of RFC 3986) for every byte |
| `UriRoundTrip.HostsAreRead` | mysqlconnector/cdk/parser/uri_parser.cc:365-541 | what is reported for any hosts or host list, which are not taken for credentials |
| `UriRoundTrip.EntriesAreRead` | mysqlconnector/cdk/parser/uri_parser.cc:494-541 | what is reported for any entries of a host list |
| `UriRoundTrip.EntriesReadIsEvents` | mysqlconnector/cdk/parser/uri_parser.cc:494-541 | it is what was printed if and only if every entry is good |
| `UriRoundTrip.CredRoundTrip` | mysqlconnector/cdk/parser/uri_parser.cc:688-717 | credentials |
| `UriRoundTrip.ItemsRoundTrip` | mysqlconnector/cdk/parser/uri_parser.cc:737-820 | query pairs, flags and lists of values |
| `UriRoundTrip.ReportRoundTrip` | mysqlconnector/cdk/parser/uri_parser.cc:449-483 | a host is reported as itself, as a socket, as a pipe or as an error, exactly by its port and its first characters |
| `UriRoundTrip.PortOnlyListIsV6` | mysqlconnector/cdk/parser/uri_parser.cc:384-400 | a list that consists of a port alone is reported as an IPv6 address |
| `UriRoundTrip.TopPriorityIsLost` | mysqlconnector/cdk/parser/uri_parser.cc:511-531 | the priority 65535 is reported as if none had been given, and a larger one is an error |
| `UriHosts.PlainHostIsRead` | mysqlconnector/cdk/parser/uri_parser.cc:593-647 | a host of plain characters with a port is read as it is if and only if no dot after one to three leading groups of digits lacks a digit after it, and nothing follows a fourth group |
| `UriHosts.AddressOf` | mysqlconnector/cdk/parser/uri_parser.cc:593-647 | what is read of every such host, and what is left of it |
| `UriHosts.DotIsLost` | mysqlconnector/cdk/parser/uri_parser.cc:593-632 | a failing family: a group of digits and a dot before any plain name lose the dot |
| `UriHosts.EntryResumes` | mysqlconnector/cdk/parser/uri_parser.cc:500-541 | an entry of a host list that is no host-priority pair is read from its first character if and only if it does not start with `(address`, in any spelling, without `=` after it; otherwise from its second, although as a whole it would be an error |
| `UriHosts.StrayIsHost` | mysqlconnector/cdk/parser/uri_parser.cc:500-541 | a failing family: what follows the parenthesis of such an entry is reported as a host, while the entry as a whole would be an error |
| `UriHosts.StrayEntry` | mysqlconnector/cdk/parser/uri_parser.cc:500-541 | the entry `(address)` of a list is reported as the host `address)` |
| `UriPlain.PlainUriIsRead` | mysqlconnector/cdk/parser/uri_parser.cc:322-334 | the whole URI `mysqlx://host:port` with a host of plain characters is reported as that host and port if and only if the port fits, the host has no `@` and no leading parenthesis, and the condition on dots and groups holds |
| `UriPlain.PlainUriOf` | mysqlconnector/cdk/parser/uri_parser.cc:322-334 | what is reported for every such URI without `@` and leading parenthesis |
| `UriPlain.ParsePlain` | mysqlconnector/cdk/parser/uri_parser.cc:47-57 | the same if-and-only-if for the parser itself |
| `UriPlain.DotIsLostInUri` | mysqlconnector/cdk/parser/uri_parser.cc:593-632 | a failing family: the dot after a group of digits before a name is lost |
| `UriPlain.FourthGroupEnds` | mysqlconnector/cdk/parser/uri_parser.cc:593-632 | a failing family: anything after a fourth group of digits makes the URI an error |
| `UriPlain.CharactersOf` | mysqlconnector/cdk/parser/uri_parser.cc:160-312 | which characters can stand in each part of a URI without a percent sign |
| `UriPlain.AllowedIsRead` | mysqlconnector/cdk/parser/uri_parser.cc:856-871 | a text of such characters is read as far as it goes |
| `UriPlain.SchemeOf` | mysqlconnector/cdk/parser/uri_parser.cc:916-955 | a URI is read after its first `://`, which `mysqlx` must precede; without one it is read as a whole, unless a scheme is asked for or it starts with that word |
| `UriPlain.V6IsRead` | mysqlconnector/cdk/parser/uri_parser.cc:543-592 | an IPv6 address of hexadecimal digits and colons in brackets, with a port, is reported as it is |
| `UriProgress.AcceptedIsReadable` | mysqlconnector/cdk/parser/uri_parser.cc:967-1001 | every accepted URI consists, after its scheme, of characters that can stand in one and of well-formed percent signs |
| `UriProgress.AcceptedIsClean` | mysqlconnector/cdk/parser/uri_parser.cc:322-334 | the parser only moves forward, never over a token that cannot be read, and accepts only if it has taken all |
| `UriPlain.ParenthesisedPath` | mysqlconnector/cdk/parser/uri_parser.cc:405-440 | a path in parentheses, with parentheses inside to any depth, is reported as a socket or a pipe with that path, and anything else in parentheses is an error |
| `UriParser.ParseString` | mysqlconnector/cdk/parser/uri_parser.cc:47-57 | the parser, started on any string, reports exactly the events of the grammar, or fails |
| `UriRoundTrip.PrintAndParse` | mysqlconnector/cdk/parser/uri_parser.cc:47-57 | the parser itself, run on a printed URI, reports exactly its components if and only if its hosts are good |
| `Tokenizer.Tokenizer.GetTokens` | mysqlconnector/cdk/parser/tokenizer.cc:69-121 | the main loop gives exactly the specified tokens and stop position, or fails |
| `Tokenizer.Tokenizer.ParseNumber` | mysqlconnector/cdk/parser/tokenizer.cc:166-231 | integers and floating-point numbers |
| `Tokenizer.Tokenizer.ParseHex` | mysqlconnector/cdk/parser/tokenizer.cc:243-298 | hexadecimal literals |
| `Tokenizer.Tokenizer.ParseQuoted` | mysqlconnector/cdk/parser/tokenizer.cc:363-404 | the text between quotes, with escapes and repeated quotes |
| `Tokenizer.Tokenizer.ParseSymbol` | mysqlconnector/cdk/parser/tokenizer.cc:93-110 | symbols of several characters before single ones |
| `Tokenizer.Tokenizer.ParseWord` | mysqlconnector/cdk/parser/tokenizer.cc:308-336 | words and quoted words |
| `TokenGrammar.TokensAreLexed` | mysqlconnector/cdk/parser/tokenizer.cc:69-121 | for every text: a list of tokens with kinds, texts and ranges is found if and only if it is the list of the lexical grammar, which says what integers, floats, hexadecimal texts, words, symbols and quoted texts are |
| `TokenGrammar.TokenFound` | mysqlconnector/cdk/parser/tokenizer.cc:69-402 | what is found at a place is a token of its kind and text by the grammar |
| `TokenGrammar.TokenRead` | mysqlconnector/cdk/parser/tokenizer.cc:69-402 | what is a token by the grammar is found |
| `TokenGrammar.NumberFound` | mysqlconnector/cdk/parser/tokenizer.cc:160-231 | an integer is a maximal run of digits without fraction and exponent, and a float has one of them |
| `TokenGrammar.FloatRead` | mysqlconnector/cdk/parser/tokenizer.cc:160-231 | every float with every fraction and exponent is one token |
| `TokenGrammar.QuotedIs` | mysqlconnector/cdk/parser/tokenizer.cc:363-402 | what is between quotes: characters as they are, after a backslash, or doubled quotes |
| `TokenSyntax.TokensCover` | mysqlconnector/cdk/parser/tokenizer.cc:69-121 | for every input that does not fail, the ranges are non-empty, disjoint, increasing and cover every character that is not a space before the stop point |
| `TokenSyntax.LongestSymbol` | mysqlconnector/cdk/parser/tokenizer.cc:93-110 | a symbol token is the longest symbol there, and is missed only if there is none |
| `TokenSyntax.UnquoteEscaped` | mysqlconnector/cdk/parser/tokenizer.cc:363-404 | unquoting the backslash-escaped form of any text returns the text |
| `TokenSyntax.UnquoteDoubled` | mysqlconnector/cdk/parser/tokenizer.cc:363-404 | unquoting the form with doubled quotes returns the text |
| `Tokenizer.QuotedIsOneToken` | mysqlconnector/cdk/parser/tokenizer.cc:346-404 | any text in any of the three quotes is one token with that text |
| `Tokenizer.Tokenize` | mysqlconnector/cdk/parser/tokenizer.cc:69-121 | every text gives exactly its tokens by the lexical grammar, or fails if it has none; their ranges cover the text but for spaces |
| `JsonSyntax.JsonRoundTrip` | mysqlconnector/cdk/parser/json_parser.h:105-125 | a JSON document is returned by parsing its tokens, with nothing left, if and only if it is printable |
| `JsonSyntax.RoundTrip` | mysqlconnector/cdk/parser/parser.h:390-681 | every printable value, with any tokens after it |
| `JsonSyntax.ParsedIsPrintable` | mysqlconnector/cdk/parser/json_parser.cc:97-190 | only printable values are ever read: integers strictly between -2^63 and 2^63, or unsigned ones above 2^63 |
| `JsonSyntax.IntegerIsRead` | mysqlconnector/cdk/parser/json_parser.cc:153-181 | every integer with or without a sign: read as its value, signed or unsigned, if and only if it fits; 2^63 is refused although larger unsigned ones are not |
| `JsonParser.Parser.ParseScalar` | mysqlconnector/cdk/parser/json_parser.cc:97-190 | scalars, with the ranges of signed and unsigned integers |
| `JsonParser.Parser.ParseElements` | mysqlconnector/cdk/parser/parser.h:390-414 | the do-while list loop puts its elements into the array builder on top, and no other builder changes |
| `JsonParser.Parser.ParseArray` | mysqlconnector/cdk/parser/parser.h:527-548 | an array in its place in the enclosing builder, whose key and other values stay |
| `JsonParser.Parser.ParseDocument` | mysqlconnector/cdk/parser/parser.h:611-635 | a nested document in its place in the enclosing builder, whose key and other values stay |
| `JsonParser.Parser.ParsePairs` | mysqlconnector/cdk/parser/parser.h:390-414 | the list of key-value pairs |
| `JsonParser.Parser.ParseKeyValue` | mysqlconnector/cdk/parser/parser.h:662-681 | a key-value pair |
| `JsonParser.Parser.Process` | mysqlconnector/cdk/parser/json_parser.h:105-125 | the builder ends with the document of the grammar, or the parse fails exactly where the grammar does |
| `JsonParser.PrintAndParse` | mysqlconnector/cdk/parser/json_parser.h:105-125 | printing, parsing and building any printable document with distinct keys gives the same tree |
| `JsonBuilder.KeyRule` | mysqlconnector/devapi/document.cc:257-313 | for any repeated keys: the keys are those written, and each has its last array or document, or else its first scalar |
| `JsonBuilder.BuildsTheTree` | mysqlconnector/devapi/document.cc:125-313 | without repeated keys the built value is the tree that was written |
| `JsonBuilder.TreeIsUnique` | mysqlconnector/devapi/document.cc:125-313 | no other value is that tree |
| `JsonBuilder.Builder.PutScalar` | mysqlconnector/devapi/document.cc:294-313 | emplaces a scalar, or appends it |
| `JsonBuilder.Builder.Open` | mysqlconnector/devapi/document.cc:192-290 | starts a nested builder at the place of its value |
| `JsonBuilder.Builder.Close` | mysqlconnector/devapi/document.cc:192-290 | ends a nested builder |
| `ReplySession.Session.ReadMeta` | mysqlconnector/cdk/protocol/mysqlx/rset.cc:304-421 | one message while columns are described: never an unexpected one, and the session ends up exactly where the reply says |
| `ReplySession.Session.PassOn` | mysqlconnector/cdk/mysqlx/result.cc:506-522 | a row goes to the processor if it is wanted, and the reading stops exactly at the limit |
| `ReplySession.Session.EndRows` | mysqlconnector/cdk/mysqlx/result.cc:563-583 | the end of the rows queues exactly one follow-up read |
| `ReplySession.Session.ReadRow` | mysqlconnector/cdk/protocol/mysqlx/rset.cc:422-454 | one message while rows are read keeps the invariant of the session |
| `ReplySession.Session.ReadStmt` | mysqlconnector/cdk/protocol/mysqlx/rset.cc:455-467 | the final answer |
| `ReplySession.Session.ContFront` | mysqlconnector/cdk/mysqlx/result.cc:178-210 | one message of the operation at the head of the queue keeps the invariant, so it holds in every interleaving |
| `ReplySession.Session.Wait` | mysqlconnector/cdk/mysqlx/result.cc:213-237 | works off the queue; throws exactly if the reply jams here |
| `ReplySession.Session.HasResults` | mysqlconnector/cdk/mysqlx/result.cc:113-133 | true exactly if a result set is ready |
| `ReplySession.Session.OpenCursor` | mysqlconnector/cdk/mysqlx/result.cc:259-294 | opens the next result set exactly if no cursor is open and one is offered |
| `ReplySession.Session.SkipResult` | mysqlconnector/cdk/mysqlx/result.cc:136-158 | consumes one result set |
| `ReplySession.Session.Discard` | mysqlconnector/cdk/mysqlx/result.cc:88-109 | terminates with the whole reply consumed and every result set taken once in order; throws exactly if a cursor is open or a gap is ahead, and then stops after the first gap; after that it succeeds, reads nothing and leaves the rest of the reply in the stream |
| `ReplySession.Session.Begin` | mysqlconnector/cdk/mysqlx/session.cc:409-425 | a new command first completes the previous reply, and is answered by the first reply that is still unread: its own, unless an earlier one was given up after a gap |
| `ReplySession.Session.SendCommand` | mysqlconnector/cdk/mysqlx/session.cc:915-931 | queues the command and the first read |
| `ReplySession.Cursor.GetRows` | mysqlconnector/cdk/mysqlx/result.cc:303-336 | starts reading, after completing a read that is under way, with any limit |
| `ReplySession.Cursor.WaitRows` | mysqlconnector/cdk/mysqlx/result.cc:471-484 | reads up to the limit, which wraps around if it is 0, or to the end: exactly the next rows in order |
| `ReplySession.Cursor.Close` | mysqlconnector/cdk/mysqlx/result.cc:348-375 | consumes exactly the remaining rows, passes none on, leaves exactly one read queued and lets go of the session |
| `ReplySession.DropAll` | mysqlconnector/cdk/mysqlx/result.cc:63-109 | a client that sends any number of commands and drops each reply gets an exception if and only if some reply has a gap, at the first such reply |
| `ReplySession.TidyNeverJams` | mysqlconnector/cdk/protocol/mysqlx/rset.cc:253-300 | a reply in which only the last place is empty never jams, in any state of any run |
| `ReplySession.MetaEnds` | mysqlconnector/cdk/protocol/mysqlx/rset.cc:340-421 | which state the message after the column descriptions leads to |
| `ReplySession.RowsGoOn` | mysqlconnector/cdk/protocol/mysqlx/rset.cc:422-455 | what can come while rows are read |
| `ReplyMessages.ReplyExamples` | mysqlconnector/cdk/protocol/mysqlx/rset.cc:278-298 | the message sequences that the source gives as examples are the replies of the grammar |
| `ReplyMessages.RestIsReply` | mysqlconnector/cdk/protocol/mysqlx/rset.cc:253-300 | what follows any item of a reply is itself a complete reply of the items that are left |
| `ReplyMessages.SetsInOrder` | mysqlconnector/cdk/protocol/mysqlx/rset.cc:253-300 | the result sets taken in a run are each taken once and in server order |
| `ReplyMessages.MetaNext` | mysqlconnector/cdk/protocol/mysqlx/rset.cc:304-421 | the next message while columns are described, in terms of the reply grammar |
| `ReplyMessages.RowsNext` | mysqlconnector/cdk/protocol/mysqlx/rset.cc:422-455 | the next message while rows are read, in terms of the reply grammar |
| `RowCache.Result.EmplaceAfter` | mysqlconnector/common/result.cc:327-334 | inserting after the node of the tail iterator appends |
| `RowCache.Result.RowEnd` | mysqlconnector/common/result.cc:327-334 | an accepted row goes to the end of the cache and is counted |
| `RowCache.Result.Load` | mysqlconnector/common/result.cc:273-307 | one batch, or all rows, move from unread to cache; nothing is lost or reordered |
| `RowCache.Result.LoadCache` | mysqlconnector/common/result.cc:264-307 | rows returned ++ cache ++ accepted unread rows stay the accepted rows of the set; for a batch it tells exactly if the cache has rows, for all rows exactly if it has rows and some were pending |
| `RowCache.Result.GetRow` | mysqlconnector/common/result.cc:240-252 | returns the next accepted row; nothing exactly if the cache is empty and the next batch has no accepted row, also in the call that opens the first set; with the default filter only when the set is exhausted |
| `RowCache.Result.NextResult` | mysqlconnector/common/result.cc:185-237 | drops the rest of the current set and opens the next one |
| `RowCache.Result.Store` | mysqlconnector/common/result.h:1080-1084 | all accepted rows are returned or in the cache |
| `RowCache.Result.Count` | mysqlconnector/common/result.h:1086-1091 | the number of rows that later calls return |
| `RowCache.AcceptedAppend` | mysqlconnector/common/result.cc:327-334 | filtering a batch at a time is filtering the set |
| `RowCache.Result.TakeRest` | mysqlconnector/common/result.h:1080-1091 | for every filter, a caller that asks for the count and takes rows until there is none gets exactly that many: the accepted rows not yet returned, in order |
| `RowCache.Result.TakeAll` | mysqlconnector/common/result.cc:185-339 | for every filter and every reply without a gap, a caller that goes through all results gets the accepted rows of every result set, in server order, and nothing is thrown |
| `RowCache.ReadReply` | mysqlconnector/cdk/mysqlx/result.cc:63-375 | a whole conversation, from sending a command to the last row, with notices anywhere: the rows that come out are the accepted rows of the server's result sets |
| `RowCache.ReadAfterGap` | mysqlconnector/cdk/mysqlx/session.cc:409-431 | a conversation that goes out of step: after a reply with a gap is discarded, the rows that come out for the next command are those that follow the gap in the old reply |
| `GroupScan.Program.Find` | lib/helpers.cpp:36-70 | the position of a key, -1 exactly if it is not there |
| `GroupScan.Program.IsUnique` | lib/helpers.cpp:72-99 | whether no kept row has the key |
| `GroupScan.Program.GetUniques` | lib/helpers.cpp:100-108 | the rows kept by the loop are the specified ones |
| `GroupTables.UniquesAreFirsts` | lib/helpers.cpp:72-108 | the kept rows are exactly the first row of each key, in order |
| `GroupTables.UniquesFacts` | lib/helpers.cpp:72-108 | keys are distinct and every row's key is kept |
| `GroupScan.Program.Prelim` | lib/objects/scan_generator.cpp:77-102 | all tables and the answer start aligned by key, with zero accumulators |
| `GroupScan.Program.Add` | lib/objects/scan_generator.cpp:115-137 | one row updates every accumulator at one position of one table and nothing else |
| `GroupScan.Program.LookupScan` | lib/objects/scan_generator.cpp:105-144 | the MF scan completes its own table and touches no other |
| `GroupScan.Program.NestedScan` | lib/objects/scan_generator.cpp:146-182 | the EMF nested loop completes its own table and touches no other |
| `GroupScan.Program.Scans` | lib/objects/scan_generator.cpp:105-182 | all tables are the declarative ones, each scan having read final tables only |
| `GroupScan.Program.Fill` | lib/objects/scan_generator.cpp:185-215 | the erase-and-step-back loop keeps exactly the positions that satisfy HAVING, in order, and finds each key at its original position |
| `GroupScan.Program.Run` | lib/objects/scan_generator.cpp:18-28 | the whole emitted program computes the declarative tables and answer |
| `GroupScan.Evaluate` | lib/objects/scan_generator.cpp:18-28 | the emitted program, run on any data, gives the declarative answer |
| `GroupScan.AnswersAreAnswered` | lib/objects/scan_generator.cpp:184-215 | the answer has a row for each key that satisfies HAVING, in order, and shows for every selected aggregate the count, sum, minimum, maximum, or the truncated quotient of sum and count, of exactly the matching rows |
| `GroupTables.ShownIsAggregate` | lib/objects/average.tcc:10-22 | what is shown for an average is the sum divided by the count and truncated, and 0 for no rows |
| `GroupTables.ShownIsUnique` | lib/objects/average.tcc:18-22 | no other number is that |
| `GroupTables.KeyIsColumns` | lib/helpers.cpp:36-108 | a key is made of the columns of the grouping attributes in order |
| `GroupTables.CellMeaning` | lib/objects/scan_generator.cpp:105-182 | each cell is the sum, count, sum/count pair, or maximum or minimum with 0, of exactly the matching rows, given final earlier tables |
| `GroupTables.MatchingExact` | lib/objects/scan_generator.cpp:58-63 | the matching rows, each as often as it occurs |
| `GroupTables.AggregateIsUnique` | lib/objects/scan_generator.cpp:115-137 | an aggregate determines its accumulator |
| `GroupTables.TrueMaximum` | lib/objects/scan_generator.cpp:132-136 | the maximum shown is one of the values if and only if some value is not negative |
| `GroupTables.TrueMinimum` | lib/objects/scan_generator.cpp:127-131 | the minimum shown is one of the values if and only if some value is not positive |
| `GroupTables.EqualityIsLookupAt` | lib/objects/scan_generator.cpp:105-182 | a grouping variable whose EMF condition is equality of all grouping attributes has the table of the MF lookup scan without a condition, whatever the other grouping variables are |
| `GroupTables.EqualityIsLookup` | lib/objects/scan_generator.cpp:105-182 | if that holds of all grouping variables, all tables are the same |
| `GroupConditions.KeyConditionsCompare` | lib/objects/condition.cpp:35-49 | the written condition `k1=k1 and k2=k2 ...` is that equality |
| `GroupConditions.WrittenEqualityIsLookup` | lib/objects/scan_generator.cpp:105-182 | a grouping variable of an EMF query that is given by this written condition has the table of the MF lookup scan |
| `GroupConditions.CellHolds` | lib/objects/condition.cpp:50-79 | a condition on an aggregate, in any chain of conditions of an MF or EMF query, compares with the final aggregate of the same key, and never holds for the first key |
| `GroupConditions.CompareNumbers` | lib/objects/condition.cpp:35-92 | the six operators compare numbers as numbers |
| `GroupConditions.CompareTexts` | lib/objects/condition.cpp:35-92 | and texts like words in a dictionary |
| `GroupConditions.ChainIsRuns` | lib/objects/conditions.cpp:28-34 | a chain of conditions is true exactly if some maximal run joined by `and` is all true |
| `GroupConditions.AggregateCondition` | lib/objects/condition.cpp:50-79 | for every chain of conditions of an MF or EMF query: a row counts for a key if and only if, with aggregates being the final ones of that key and false for the first key, some maximal run joined by `and` is all true |
| `GroupConditions.FirstKeyStaysZero` | lib/objects/condition.cpp:57-61 | if every run of conditions has an aggregate, no row counts for the first key, in MF and EMF queries |
| `GroupConditions.ConstantsTestTheGroup` | lib/objects/condition.cpp:94-107 | in an EMF query conditions with constants test the representative: a group counts every row or none |
| `Decimal.DecimalToString` | mysqlconnector/cdk/core/codec.cc:362-419 | every buffer gives the specified text or is refused |
| `Decimal.Digits` | mysqlconnector/cdk/core/codec.cc:397-413 | the nested nibble loop |
| `Decimal.HalfByteText` | mysqlconnector/cdk/core/codec.cc:397-413 | a half byte is shown as its decimal numeral |
| `Decimal.DecodesExactly` | mysqlconnector/cdk/core/codec.cc:362-419 | the text of a packed number denotes it if and only if it is not the case that an odd number of digits, not all 0, has scale 1; then it denotes ten times the number |
| `Decimal.DecodedText` | mysqlconnector/cdk/core/codec.cc:362-419 | the digits are always those packed, and where the point is |
| `Decimal.ScaleTooLarge` | mysqlconnector/cdk/core/codec.cc:389-391 | a scale that leaves no digit before the point is refused |
| `Explode.Trim` | lib/str.cpp:336-350 | only leading blanks are removed; the result is empty exactly for blank text |
| `Explode.CExplode` | lib/str.cpp:38-56 | the loop that resumes at index 1 after each split gives the specified fields; the empty text is refused |
| `Explode.ExplodeInvertsJoin` | lib/str.cpp:38-56 | for all delimiter-free fields, splitting inverts joining if and only if no field after the first is empty and the last one is not blank |
| `Explode.AtoiInvertsItoa` | lib/str.cpp:390-396 | reading a printed integer gives it back |
| `Explode.NewAggregate` | lib/objects/aggregate.cpp:6-20 | reading an aggregate from its fields |
| `Explode.AggregateRoundTrip` | lib/objects/aggregate.cpp:6-44 | reading the printed form gives the aggregate back if and only if its column is not blank and, with a group, its function name is not empty |

## Left out

- Sockets, TLS, authentication, SHA1 and the SQL connection of the compiler: input and output and foreign calls.
- Server errors in a reply, and the plain `Ok` reply to commands that are no statements: the runs of `ReplySession` are free of server errors. Notices are part of the model.
- Row processors that refuse a row in `row_begin`: the result object accepts every row.
- Metadata contents, row encodings, collations and diagnostics: only counts of columns and whole rows are modelled.
- Registration of results with the session (`prepare_for_cmd`): it calls `store`, which is modelled.
- Null processors other than the one that asks for storing: a tree-building processor that never returns null is assumed, as for the claims on storing and replaying.
- The `Stored_*` objects are values, with the sorted map of a stored document as a sorted list; ownership and deletion are not modelled.
- A nullary `*` is reported with the begin and the end of an empty argument list, as it is when it is replayed; the source makes neither call when it reports it directly.
- Calls of POSITION are parsed by the model but are not part of the printed forms; their own lemmas say when they are accepted. Operators and clauses that the source rejects as unsupported, as in TRIM(BOTH ...), are failures.
- Keyword recognition: a token carries its keyword class.
- ExprParser.Parser.ParseArrowPath: the quoted path after an arrow is split into tokens by a parameter of the parser, because tokens carry keyword classes that the tokenizer of the model does not assign.
- JsonSyntax.IntegerIsRead: -2^63 counts as refused, because its negation overflows in the source.
- Failed assertions and undefined behaviour of the source (a cast to type NONE, the negation of -2^63) are failures in the model.
- Setter.SetterObject.SetOption: the URI option is left out; the setter receives the options that the URI parser reports.
- DataSource.MultiSource.Add: sources are kept in the order in which they are added; the multimap that orders them by priority for the failover is not modelled.
- TLS support is assumed to be compiled in.
- JsonParser.Parser.ParseScalar: an integer token carries its value, because its text is made of digits only; floating-point numbers keep their text.
- Floating-point numbers keep their text; conversion to floating point is not modelled. Texts are sequences of characters without encoding, and character classes are those of the C locale.
- JsonBuilder.Builder.Close: nested values are held by shared pointers in the source; the model writes a nested value to its place in the enclosing builder when the nested builder ends, so sharing is not modelled.
- Forward lists are sequences of nodes with identities: the tail iterator is the identity of a node.
- Grouping attributes are taken to be selected, as the copies in the emitted program need; conditions see tables of earlier grouping variables only, and HAVING sees aggregates only.
- GroupScan.Program.Fill: stepping back from the first position of a vector is taken to reach that position again on the next step.
- The text of the emitted program (types, printing, headers) and the parsing of conditions from text: the model gives the meaning of the emitted loops and conditions.
- Integer widths in the emitted program: sums and counts are unbounded. Averages show the truncated quotient.
- The decimal point of the locale is taken to be a dot.
- `Explode`: the least `int` is left out because it cannot be negated.
- CRUD builders, C API wrappers, collation tables, code generation and documentation scripts: they would only add easy members.
