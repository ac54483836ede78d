# deltaswamp, verified

A Dafny model of the hard logic of deltaswamp, which routes Delta Lake operations to
engines, and proofs about it. `dafny verify dfyconfig.toml` checks the whole project.

## What is modelled

**The predicate compiler** (`Kleene`, `Values`, `Predicates`, `Skipping`, `SkippingSoundness`,
`FileSkipping`, `LiteralAlignment`, `LikeRange`, `BalancedFold`, `ArrowBackend`, `ArrowSoundness`,
`DataFusionBackend`, `DataFusionSoundness`). A WHERE clause is an AST with a naive reading in
three-valued logic where NaN is the largest number. It is weakened into a file-skipping
predicate, with polarity, and compiled to two exact back ends.

**Printing and parsing** (`SqlLexer`, `SqlParser`, `LazyFilter`, `PrintLex`, `PrintParse`,
`PrintMeaning`). A pyarrow filter is printed as SQL text, character by character, and read back
by the tokenizer and the recursive-descent parser.

**The Variant codec** (`Bytes`, `Text`, `Decimals`, `Variant`, `VariantRoundTrip`,
`VariantLimits`, `JavaNumber`), after the metadata and value encodings of the Parquet Variant
specification. JSON text starts at the parsed item; strings are written as UTF-8 and ordered as UTF-16.

**The distributed commit protocol** (`CommitLog`, `CommitProtocol`, `CommitSafety`,
`CommitCleanup`, `CertainFailures`, `SiteCommits`, `SiteSafety`, `CreateProtocol`, `CreateRun`,
`CreateOrphans`, `ManagedCreate`). Writers share an append-only log. A script says what each attempt
meets: which commits other writers put at each point, what the store or catalog answers, and whether
an unconfirmed commit landed. Every script is covered, and every run of commits and aborts, of writes
into a table and of writes that create it. Where tables are created, other writers also create and undo
theirs, a step at a time, at any point of any call.

**Load balancing** (`Balance`, `BalanceBounds`), **version checksums** (`Checksum`,
`ChecksumReplay`), **timestamps** (`CommitTime`), **pipelined staging** (`Staging`) and **table
names** (`Identity`).

Loops and objects that change state are methods and classes proved equal to a specification
function; the properties are proved of that function.

## Assumptions

* *Settled attempts*: a commit that reports a transient failure has landed, or never will, by
  the next landed check. A put that lands between that check and the fresh snapshot inside
  `commit_files` would be added twice.
* In `CommitSafety` and `CommitCleanup` the table stays; `SiteSafety` and `CreateRun` are about a version 0
  that may go.
* *Put-if-absent* is atomic, and other writers never add this write's own file names.
* `Retryable` has two meanings: the table is unchanged, or the outcome is unknown. `Staging.Fate`
  keeps them apart.
* The calls of one plan do not overlap, and other writers undo only creates of their own: they tell
  a version 0 by the id in its metaData.
* A registration that the catalog does not confirm has taken effect, or never will, by the time
  the catalog is asked who has the name.
* `SkippingSoundness.TextAgrees` and `DoublesDecide`: where the native extension accepts a
  literal, it reads the same date, time or string as Python, and a decimal accepted for a double
  column falls on the side of every stored double that Arrow's cast puts it. What it accepts is otherwise arbitrary.
* `ArrowSoundness.LibraryTypes`: Arrow's own conversions give values of the type they name, NULL
  only for NULL, for every type but an integer of no bits, which has no values. `DataFusionSoundness.SpellerAgrees`: text read as a float is NaN only when it spells it.
* `DataFusionBackend.SqlCompare`: DataFusion compares a floating column with an integer or decimal one as
  DOUBLE, which the renderer leaves to it and the Arrow builder casts for.
* `PrintMeaning.ReadsDates`: an ISO date reads back as the date it was written from.
* What is assumed of Arrow, the standard library and the native reader holds together of a concrete
  one (`Consistency`), so none of the theorems that assume it is empty.
* `CommitTime.KernelContract`: the kernel's search of in-commit timestamps follows its documentation.
* `CommitTime.Timeline` is unbroken and strictly increasing (with `Headroom`, the file-timed part is), and the
  latest commit's time is its last.
* A well-formed log adds only files that are not live and removes only files that are, in the
  commits whose operation the checksum counts (Delta Transaction Log Protocol, "Action Reconciliation").

## What was found

* `CommitSafety.LandsAgainExactlyWhen`: committed files are appended again exactly when neither the
  fragments nor the plan dates from before the version that adds them.
* `CommitSafety.FailuresAreCertainExactlyWhen`: every catalog-managed append plan without its catalog
  can call a failure certain although its own earlier attempt landed, and no other append plan can.
  `abort` refuses there, so nothing is lost.
* `ManagedCreate.ManagedCommitLosesExactly`: a managed commit that fails for certain drops the table with
  everything other writers committed since it resolved it, if the table held version 0 alone then: the
  look before the drop reads the table as resolved. A lost race does it (`LostRaceDropsTheWinner`).
* `ManagedCreate.ManagedAbortLosesExactly`: aborting a managed create drops whatever table another writer
  has under the name. `_current` gives the template's plan there, which is a new object with this plan's
  own table id, so the test in `abort` lets `_undo` run; it reads version 0 off the template, and drops
  the name. The documentation of `abort` promises to undo the create only where nothing else landed. A
  name that was free is no safer: a table registered before the drop goes with it.
* `CreateRun.RunsAreSafeExactlyWhen`: a plan that may join another writer's table (its mode is append, or
  a plain write commits its files there) can report a version of no table, and can have a committed file
  deleted. A rival that undoes its create between this write's snapshot and its put deletes version 0;
  the put asks only whether version 1 is free, and lands. If the answer is lost, `abort` takes the missing
  version 0 to mean that no version can reference the files. Every other plan is safe in every interleaving.
* `CreateOrphans.CommitOrphansExactlyWhen`, `AbortOrphansExactlyWhen`: undoing the create of a path table
  looks and then deletes, and leaves without a version 0 exactly what other writers commit between the
  two, and after, on snapshots they hold (`LateWriterIsOrphaned`). `CreateTakesOrphansIn`: the next create
  at that location takes those versions in as its own.
* `Staging.AnswerCanDeleteCommittedExactlyWhen`: `never_committed` can be wrong after a timeout or a server
  error, and after no other answer.
* `VariantLimits.FractionTextIsExact`, `WholeTextIsExact`: decimal text is exact up to 28
  significant digits only, though 38 are stored.
* `DataFusionSoundness.LikeFormsAgreeExactlyWhen`: on a floating column the back ends agree on a LIKE
  exactly when its pattern does not tell the texts of -0.0 and 0.0 apart.
* `CommitTime.Above` asks for times above the least 64-bit integer: a first commit timed at
  exactly that value is moved up by one millisecond.

## Model

| member | source | states |
|---|---|---|
| `FileSkipping.SkippingLosesNoRow` | python/deltaswamp/predicate.py:1038-1052 | whole pipeline (rewriting, polarity-tracking rendering, native conversion): statistics that refute the skipping predicate refute the WHERE clause for every row of the file, NaN and wide decimals included |
| `FileSkipping.UnguardedFloatLosesNaN` | python/deltaswamp/predicate.py:804-830 | why the guard exists: sent without it, `f > 2` refutes a file whose only row is a NaN the filter keeps |
| `FileSkipping.ShadowExists` | python/deltaswamp/predicate.py:804-830 | every row of a described file has a stand-in row its statistics admit, differing only where statistics cannot decide |
| `SkippingSoundness.PrepareWeakens` | python/deltaswamp/predicate.py:962-1029 | the rewriting is weaker than the clause, and under NOT has exactly its truth value |
| `SkippingSoundness.SkipWeakens` | python/deltaswamp/predicate.py:726-756 | dropping unrenderable parts only weakens; beneath a NOT nothing is dropped |
| `SkippingSoundness.SkipIsDecidable` | python/deltaswamp/predicate.py:841-864 | every comparison rendered is one that min/max statistics without NaN can decide at its polarity |
| `SkippingSoundness.ConvertWeakens` | crates/native/src/predicate.rs:56-119 | the kernel predicate on the stand-in row is TRUE wherever the JSON predicate is TRUE on the row, and equal to it where exactness is asked |
| `SkippingSoundness.AlignItemKeeps` | python/deltaswamp/predicate.py:1001-1015 | a realigned IN or BETWEEN literal compares as the original does |
| `SkippingSoundness.LikeAsRangeWeakens` | python/deltaswamp/predicate.py:1016-1028 | a row the LIKE keeps lies in the range put in its place |
| `LiteralAlignment.AlignmentMovesNoBoundary` | python/deltaswamp/predicate.py:872-920 | for every integer or double column value and every literal rewritten, the row filter's comparison and the rewritten one agree |
| `LiteralAlignment.RoundingKeepsTheSide` | python/deltaswamp/predicate.py:901-905 | below 2^53 rounding a 64-bit integer to a double (half to even) never moves it across the literal |
| `LiteralAlignment.CutOffIsTight` | python/deltaswamp/predicate.py:869-905 | at 2^53 itself the rewriting would be wrong: 2^53 + 1 compares equal to the literal |
| `LikeRange.LikePrefix` | python/deltaswamp/predicate.py:923-941 | the scanning loop returns the literal prefix and whether it is the whole pattern |
| `LikeRange.AfterPrefix` | python/deltaswamp/predicate.py:944-959 | the popping loop returns the upper bound, stepping over the surrogate gap |
| `LikeRange.RangeIsPrefix` | python/deltaswamp/predicate.py:944-959 | a string is in [p, bound(p)) exactly when it starts with p |
| `LikeRange.UpperBoundIsLeast` | python/deltaswamp/predicate.py:944-959 | no smaller string bounds all strings that start with p; there is no bound exactly when there is none to give |
| `LikeRange.LikeImpliesRange` | python/deltaswamp/predicate.py:1016-1028 | a string matching the pattern lies in the range; without a wildcard it equals the prefix |
| `BalancedFold.Balanced` | python/deltaswamp/predicate.py:1314-1325 | the pairing loop computes the balanced fold |
| `BalancedFold.FoldKeepsOrder` | python/deltaswamp/predicate.py:1314-1325 | the leaves of the tree, left to right, are the items in their order |
| `BalancedFold.FoldIsShallow` | python/deltaswamp/predicate.py:1314-1325 | a list of at most 2^k items folds to a tree at most k deeper than its items |
| `BalancedFold.FoldTruth` | python/deltaswamp/predicate.py:1314-1325 | folding with AND or OR has the truth value of the whole list |
| `ArrowBackend.GroupEqualities` | python/deltaswamp/predicate.py:1471-1481 | the grouping loop splits an OR into per-column literals, in order of first appearance, and the rest in order |
| `ArrowSoundness.CompareFormIsExact` | python/deltaswamp/predicate.py:1390-1424 | the NaN-aware comparison built from IEEE operators is SQL's comparison with NaN on top, NULLs included |
| `ArrowSoundness.MembershipIsExact` | python/deltaswamp/predicate.py:1426-1463 | the set lookup, with its NULL rules and its two zeros, is the disjunction of equalities |
| `ArrowSoundness.GroupingKeepsTruth` | python/deltaswamp/predicate.py:1465-1489 | grouping equalities by column changes no truth value |
| `ArrowSoundness.BuildIsExact` | python/deltaswamp/predicate.py:1491-1542 | the Arrow expression has the naive three-valued truth value of the AST on every row |
| `DataFusionSoundness.CompareSqlIsExact` | python/deltaswamp/predicate.py:1652-1684 | the CASE, isnan and NULLIF forms, on a total order where -0.0 is below 0.0, are SQL's comparison |
| `DataFusionSoundness.RenderNullSafeIsExact` | python/deltaswamp/predicate.py:1702-1714 | the CASE form of the null-safe equality is never UNKNOWN and exact |
| `DataFusionSoundness.RenderInIsExact` | python/deltaswamp/predicate.py:1719-1735 | IN with NULL items rendered as NULLIF is exact |
| `DataFusionSoundness.RenderIsExact` | python/deltaswamp/predicate.py:1686-1750 | the DataFusion SQL has the naive truth value of the AST on every row, where no LIKE on a floating column has a pattern that tells -0.0 from 0.0 |
| `DataFusionSoundness.BuildAccepts` | python/deltaswamp/predicate.py:1337-1371 | what the Arrow builder accepts is well typed for the renderer too |
| `DataFusionSoundness.BackendsAgree` | python/deltaswamp/predicate.py:1328-1750 | both back ends have the naive truth value on every row, so keep the same rows, under that guard on schema and patterns |
| `DataFusionSoundness.LikeFormsAgreeExactlyWhen` | python/deltaswamp/predicate.py:1583-1588 | on a floating column the two LIKE forms agree on every row if and only if the pattern gives one answer for the texts of -0.0 and 0.0 |
| `DataFusionSoundness.LikeOnNegativeZeroDiffers` | python/deltaswamp/predicate.py:1583-1588 | a pattern for which they do not: `-%` matches "-0.0" and not "0.0" |
| `Consistency.BackEndsCanBeSo` | python/deltaswamp/predicate.py:1276-1294 | what the back ends' theorems assume of Arrow and of text read as numbers holds of a concrete library, in which -0.0 and 0.0 have different texts |
| `Consistency.SkippingCanBeSo` | crates/native/src/predicate.rs:56-119 | so does what the skipping theorem assumes of the native reader |
| `Consistency.DatesCanBeSo` | python/deltaswamp/_lazy.py:125-139 | and what printing and parsing assume of dates |
| `SqlLexer.Tokenize` | python/deltaswamp/predicate.py:139-160 | the tokenizer loop returns the token sequence, or nothing where it raises |
| `SqlLexer.UnescapeLoop` | python/deltaswamp/predicate.py:445-474 | the escape-reading loop computes the literal's value |
| `SqlLexer.UnescapeRestores` | python/deltaswamp/_lazy.py:113-118 | reading the literal written gives back every string, backslashes and quotes included |
| `SqlLexer.LiteralIsOneToken` | python/deltaswamp/predicate.py:98-110 | the literal written is one token, ending at its own closing quote |
| `SqlParser.Parser.ReadOr` | python/deltaswamp/predicate.py:213-225 | the cursor-moving OR loop reads what the grammar says, and stops where it says |
| `SqlParser.Parser.ReadPredicate` | python/deltaswamp/predicate.py:233-239 | a parenthesis opens a predicate unless a comparison continues after its match |
| `SqlParser.Parser.FindClosing` | python/deltaswamp/predicate.py:329-342 | the scan finds the parenthesis that matches |
| `SqlParser.ParseText` | python/deltaswamp/predicate.py:649-658 | text to AST, with nothing left over |
| `PrintLex.LexRestores` | python/deltaswamp/predicate.py:98-160 | text spelled from separated tokens is split into those tokens |
| `PrintLex.PrintedTextLexes` | python/deltaswamp/_lazy.py:140-148 | every text pushed down is split into exactly the tokens it was put together from |
| `PrintParse.PiecesToks` | python/deltaswamp/_lazy.py:125-148 | the tokens of the printed text, conjunctions and lists included |
| `PrintParse.DecimalConstantReads` | python/deltaswamp/_lazy.py:127-132 | a decimal in positional notation reads back as the same number |
| `PrintMeaning.SqlReads` | python/deltaswamp/predicate.py:233-327 | through the parenthesis lookahead each printed form is read as its AST |
| `PrintMeaning.PrintThenParse` | python/deltaswamp/_lazy.py:243-290 | the text of every expression that translates parses, to the AST expected |
| `PrintMeaning.KeepsWhatItKeeps` | python/deltaswamp/_lazy.py:140-145 | that AST is TRUE on every row the expression keeps, though conjuncts were dropped |
| `PrintMeaning.PushedFilterLosesNoRow` | python/deltaswamp/_lazy.py:243-316 | printed, parsed and evaluated, the pushed filter keeps every row the pyarrow expression keeps |
| `Variant.OffsetsOf` | python/deltaswamp/_variant.py:250-254 | the offsets loop gives each part's start and the total |
| `Variant.EncodeMetadata` | python/deltaswamp/_variant.py:306-318 | the metadata bytes of the sorted keys |
| `Variant.CollectNames` | python/deltaswamp/_variant.py:268-275 | the recursive loop adds every field name at any depth to the set it is given |
| `Bytes.WidthsIsProduct` | python/deltaswamp/_variant.py:136-142 | offset i of a table lies i times the width on |
| `VariantRoundTrip.ContainerIsLaidOut` | python/deltaswamp/_variant.py:250-265 | whatever offset, id and count widths were chosen, the decoder finds the count, every id, every offset and every value's bytes |
| `VariantRoundTrip.RoundTrip` | python/deltaswamp/_variant.py:213-247 | the bytes of any nested value, wherever they lie in a buffer, read back as that value |
| `VariantRoundTrip.MetadataRoundTrip` | python/deltaswamp/_variant.py:49-57 | the decoder's key table is the keys the encoder wrote |
| `VariantRoundTrip.VariantRoundTrip` | python/deltaswamp/_variant.py:192-194 | metadata and value together: decoding what was encoded gives the same tree |
| `VariantRoundTrip.ReadsOnlyItsBytes` | python/deltaswamp/_variant.py:123-141 | decoding depends on no byte outside the value's own: reads stay in bounds |
| `VariantRoundTrip.FieldIdsIncrease` | python/deltaswamp/_variant.py:243-246 | an object's stored ids are strictly increasing, its fields being in UTF-16 order |
| `VariantLimits.Encodes` | python/deltaswamp/_variant.py:213-265 | every value under 2^32 bytes encodes, into exactly as many bytes as the layout says |
| `VariantLimits.EncodeVariantSucceeds` | python/deltaswamp/_variant.py:294-319 | encode succeeds on every value and key table under 2^32 bytes |
| `VariantLimits.FractionEncodes` | python/deltaswamp/_variant.py:218-227 | an exact decimal always fits the width its precision picks, rounding included |
| `VariantLimits.FractionTextIsExact` | python/deltaswamp/_variant.py:105-108 | a fraction's text is exact if and only if its digits past the 28th are zeros |
| `VariantLimits.WholeTextIsExact` | python/deltaswamp/_variant.py:228-234 | a wide integer is stored exactly, but its text is exact if and only if its digits past the 28th are zeros |
| `VariantLimits.TwentyNineDigitsAreRounded` | python/deltaswamp/_variant.py:105-108 | an input that shows it: 10^28 + 1 loses its last digit |
| `Decimals.DecimalsFit` | python/deltaswamp/_variant.py:208-210 | at most 9, 18 and 38 digits fit 4, 8 and 16 signed bytes, the carry of a rounding included |
| `Decimals.Round28IsNearest` | python/deltaswamp/_variant.py:226-226 | the 28-digit rounding gives the nearest such number |
| `Decimals.Round28IsStable` | python/deltaswamp/_variant.py:107-107 | rounding for the text changes nothing a rounding before storing left |
| `Text.Sorted` | python/deltaswamp/_variant.py:278-285 | keys sorted by UTF-16 code unit: ascending, each once, all of them |
| `Text.JavaKeyIsInjective` | python/deltaswamp/_variant.py:278-285 | different strings have different UTF-16 sort keys, so the order is total |
| `Text.CodePointOrderDiffers` | python/deltaswamp/_variant.py:278-285 | Python's own order of strings is another one |
| `JavaNumber.NumberRoundTrip` | python/deltaswamp/_variant.py:79-102 | for every sign, digits and exponent the text reads back as the same number, in plain notation exactly from 10^-3 up to 10^7 |
| `CommitLog.Store.CommitRaw` | crates/native/src/commit.rs:739-791 | a raw commit lands if and only if its version is the next one when it is put and the one before was there when it looked; the log is the old one, what others put, and then it |
| `CommitLog.Store.Others` | crates/native/src/commit.rs:739-791 | other raw committers append, so the versions present stay 0..n and none is replaced |
| `CommitLog.RefuseDuplicatePaths` | crates/native/src/commit.rs:1869-1903 | the loop over a batch accepts it exactly when no path was seen before, and records all of them |
| `CommitLog.CheckFragments` | crates/native/src/commit.rs:1827-1836 | fragments are accepted exactly when no path occurs twice in all of them |
| `CommitLog.ReplayIsOrderFree` | crates/native/src/commit.rs:1361-1364 | a commit that adds and removes no path in common replays the same in every order of its actions |
| `CommitSafety.StagedIsOrderFree` | crates/native/src/commit.rs:1827-1858 | what commit_files stages adds no path twice, adds none it removes, and so replays the same in any order |
| `CommitProtocol.ScanCommits` | crates/native/src/landed.rs:32-81 | the scan lists each version after the given one that adds any of the paths, with how many |
| `CommitProtocol.CommitFilesOn` | crates/native/src/commit.rs:1827-1860 | one commit against the shared log: refuse, put if the version is free, or report |
| `CommitProtocol.AttemptOn` | python/deltaswamp/distributed.py:629-707 | one turn of the loop: landed check, guard, commit with its backfill, and what follows from the answer |
| `CommitProtocol.CommitLoop` | python/deltaswamp/distributed.py:628-717 | the retry loop over every attempt, and how running out of them is reported |
| `CommitProtocol.CommitOn` | python/deltaswamp/distributed.py:585-717 | commit's refusals before any attempt, then its attempts |
| `CommitSafety.LandedIsExact` | python/deltaswamp/distributed.py:805-838 | the landed check finds the version the files landed at, and none exactly when they did not land in what it sees |
| `CommitSafety.AttemptKeeps` | python/deltaswamp/distributed.py:629-707 | every attempt, whatever it meets, keeps the files in at most one version |
| `CommitSafety.CommitKeeps` | python/deltaswamp/distributed.py:585-717 | a commit call: at most one version adds the files, a version returned adds all of them, a certain failure means none does |
| `CommitSafety.ExactlyOnce` | python/deltaswamp/distributed.py:585-717 | over any sequence of commits of the same fragments, between any other writers' commits, at most one version adds them and every version returned is that one |
| `CommitSafety.GuardedOverwriteLosesNoWriter` | python/deltaswamp/distributed.py:623-667 | one guarded overwrite planned at n lands at n+1 removing exactly what was live at n, or not at all |
| `CommitSafety.GuardedOverwritesLoseNoWriter` | python/deltaswamp/distributed.py:585-717 | so does any sequence of them, restarts included, between other writers: the one version that adds the files is n+1, and every call that returns returns it |
| `CommitSafety.LandsAgainExactlyWhen` | python/deltaswamp/distributed.py:805-838 | files that version v adds, appended again with no other writer about, land a second time if and only if the check starts at v or later; otherwise v is returned |
| `CommitSafety.UnrecordedFragmentsLandTwice` | python/deltaswamp/distributed.py:808-821 | an input that shows it: fragments without a recorded version, committed again through a later plan |
| `CommitSafety.FailuresAreCertainExactlyWhen` | python/deltaswamp/distributed.py:690-717 | what an append plan reports as a certain failure is one, on every log and in any company, if and only if the plan is not of a catalog-managed table without its catalog |
| `CommitCleanup.Storage.AbortOn` | python/deltaswamp/distributed.py:737-768 | abort deletes the files only after a check that found none of them committed |
| `CommitCleanup.AbortIsSafe` | python/deltaswamp/distributed.py:719-768 | abort deletes no file any version references |
| `CommitCleanup.CommitDeletesOnlyUncommitted` | python/deltaswamp/distributed.py:571-583 | the cleanup after a failed commit deletes only files no version adds |
| `CommitCleanup.NoCommittedFileIsDeleted` | python/deltaswamp/distributed.py:571-768 | in every run of plain commits, failures and aborts, what any version references is still there |
| `CertainFailures.FailureExactlyWhen` | python/deltaswamp/distributed.py:628-717 | by the script alone: when an append that sees the whole log fails for certain (races lost and answers lost, until an attempt is refused or the last race is lost), and the log it then leaves |
| `CertainFailures.QuietFailureExactlyWhen` | python/deltaswamp/distributed.py:628-717 | when it does so with no other writer committing meanwhile, so that the log is as it was |
| `SiteCommits.Location.FilesOn` | crates/native/src/commit.rs:1805-1860 | one commit at a location where version 0 may go: refused unless the snapshot is of the table planned, put if the next version is free, whether or not version 0 is still there |
| `SiteCommits.Location.TurnOn` | python/deltaswamp/distributed.py:629-707 | one turn of the loop there: without a version 0 the landed check cannot be made |
| `SiteCommits.Location.CommitAt` | python/deltaswamp/distributed.py:585-717 | commit there: the refusals before any attempt, then the attempts |
| `SiteCommits.Location.AbortAt` | python/deltaswamp/distributed.py:737-768 | abort there: refused without a version 0, else deleting only after a check that found none of the files |
| `SiteSafety.SiteCommitKeeps` | python/deltaswamp/distributed.py:585-717 | whoever creates and undoes tables in the middle of the call: at most one version adds the files, a version returned does, a certain failure means none does |
| `SiteSafety.SiteCommitIsGrounded` | python/deltaswamp/distributed.py:585-717 | where nobody undoes the table committed into, the version that adds the files has a version 0 under it, and keeps it |
| `SiteSafety.SiteAbortKeeps` | python/deltaswamp/distributed.py:737-768 | what an abort with a table there deletes no version adds |
| `SiteSafety.CommitIsPlain` | python/deltaswamp/distributed.py:585-717 | while nobody undoes the table, a commit at its location is the commit of the plain protocol on its log |
| `CreateProtocol.CreateOn` | python/deltaswamp/_create.py:439-479 | publishing version 0, opening whichever is there, joining another writer's table, committing, and undoing; others create, commit and undo before every step |
| `CreateProtocol.AbortCreateOn` | python/deltaswamp/_create.py:673-710 | aborting: unchecked deletion where there is no version 0, else the check, and then the undo |
| `CreateProtocol.CreateKeeps` | python/deltaswamp/_create.py:602-652 | one creating commit in every interleaving: files in at most one version, a certain failure means in none, a returned version adds them all, nothing deleted is in any version |
| `CreateProtocol.CreateIsGrounded` | python/deltaswamp/_create.py:602-652 | where nobody undoes the table it joins, or it joins none, its files lie in a table that stays |
| `CreateProtocol.CreateAbortKeeps` | python/deltaswamp/_create.py:673-739 | aborting one: nothing deleted is in a version, but for what is deleted where there is no version 0; nor that, while no version that adds the files lies without one |
| `CreateRun.StepLands` | python/deltaswamp/_create.py:439-740 | each step of a run, in every interleaving, keeps the files in at most one version, and reports truly |
| `CreateRun.CreatingRunLandsOnce` | python/deltaswamp/_create.py:439-740 | every run of creating, plain and aborted writes, with others creating, committing and undoing at any point of any call: at most one version of the location adds the files, a certain failure means none did, and a version returned adds them to the end |
| `CreateRun.StepKeeps` | python/deltaswamp/_create.py:439-740 | each step in which nobody undoes a table being joined keeps the files in a table, and nothing deleted in any version |
| `CreateRun.CreatingRunIsSafe` | python/deltaswamp/_create.py:439-740 | every run of such steps: nothing deleted, by a failed commit, an undone create or an abort, is in any version, and a version returned is one of the table there, to the end |
| `CreateRun.RunsStartIntact` | python/deltaswamp/_create.py:389-410 | where planning leaves off, what such runs keep holds |
| `CreateRun.RunsAreSafeExactlyWhen` | python/deltaswamp/_create.py:557-602 | by the plan alone: in every interleaving nothing deleted is in a version, and every version returned stays a table's, if and only if the mode is not append and no plain write commits the files into another writer's table |
| `CreateRun.ReturnedIsStranded` | crates/native/src/pending.rs:65-103 | an input that shows it: a rival undoes its create between this write's snapshot and its put, and the version returned lies without a version 0 |
| `CreateRun.NextCreateTakesItIn` | python/deltaswamp/_create.py:704-725 | an input that shows the other half: the answer was lost, the abort finds no version 0 and deletes the file unchecked, and the next create's table references it |
| `CreateOrphans.CommitOrphansExactlyWhen` | python/deltaswamp/_create.py:602-652 | by what a creating commit meets: it undoes its create if and only if it fails for certain, quietly, on version 0 alone; it then leaves without a version 0 exactly what others commit between its look and its delete, and on a table nobody else undoes nothing otherwise |
| `CreateOrphans.AbortOrphansExactlyWhen` | python/deltaswamp/_create.py:673-680 | the same of an abort; where there is no version 0, what lies there stays |
| `CreateOrphans.LateWriterIsOrphaned` | crates/native/src/pending.rs:65-103 | an input that shows it: a writer that opened the empty table commits once version 0 is gone |
| `CreateOrphans.CreateTakesOrphansIn` | python/deltaswamp/_create.py:466-479 | a create where such versions lie makes them versions 1 and on of its own table, or of a rival's that comes first, and is not undone |
| `CreateOrphans.StepOrphans` | crates/native/src/pending.rs:65-103 | by what it meets, whether a step of a run leaves a version 0 |
| `CreateOrphans.RunOrphansExactlyWhen` | crates/native/src/pending.rs:65-103 | at the end of a run all versions from 1 on lie without a version 0 if and only if some step deleted it and none created a table after, or there was none from the start; else none does |
| `ManagedCreate.Entry.CommitManagedOn` | python/deltaswamp/_create.py:481-522 | registering, losing the name, committing, and undoing by a look at the table as it was resolved |
| `ManagedCreate.Entry.AbortManagedOn` | python/deltaswamp/_create.py:673-702 | aborting a managed create, with its own unchecked deletion and its drop of the name |
| `ManagedCreate.ManagedCreateKeeps` | python/deltaswamp/_create.py:481-522 | one managed commit: files in at most one version of the plan's own log, a certain failure means in none, unchecked deletion only where the name is free or another table's |
| `ManagedCreate.ManagedAbortIsSafe` | python/deltaswamp/_create.py:673-702 | an abort deletes no file a version of the plan's own table references while that table has the name |
| `ManagedCreate.ManagedRunIsSafe` | python/deltaswamp/_create.py:439-740 | every run of managed commits and aborts, between registrations, commits and drops by others, in the middle of an undo too: the files stay in at most one version, nothing deleted is in a version of the table under the name, nor in one this plan dropped |
| `ManagedCreate.ManagedRunsStartIntact` | python/deltaswamp/_create.py:257-285 | where planning leaves off, with version 0 in the staging location, what managed runs keep holds |
| `ManagedCreate.ManagedCommitLosesExactly` | python/deltaswamp/_create.py:637-645 | by what the call meets: it drops the name if and only if its script fails for certain on a table that held version 0 alone when resolved (and no newer tail was read); others then lose whatever they have under the name, every version from the resolve to the drop |
| `ManagedCreate.LostRaceDropsTheWinner` | python/deltaswamp/_create.py:637-645 | an input that shows it: a rival wins version 1, and its version is dropped with the table |
| `ManagedCreate.ManagedAbortLosesExactly` | python/deltaswamp/_create.py:673-702 | what they lose to an abort: the same of its own table; where the name is free or another's, whatever has it at the drop, if and only if the template can still be read |
| `ManagedCreate.AbortDropsAnothersTable` | python/deltaswamp/_create.py:675-678 | an input that shows it: a table with a committed file is dropped by the abort of a plan that lost the name |
| `ManagedCreate.AbortDropsANewcomer` | python/deltaswamp/_create.py:682-692 | and one that takes a free name while the abort is on its way |
| `Balance.BalanceSplits` | python/deltaswamp/distributed.py:1423-1444 | the heap loop computes the largest-first greedy assignment, empty bins dropped |
| `Balance.PopLightest` | python/deltaswamp/distributed.py:1439-1441 | the heap's least entry leads to the lightest bin, of lowest index on a tie |
| `BalanceBounds.BalancePartitions` | python/deltaswamp/distributed.py:1423-1444 | every split in exactly one group, none empty, at most n groups |
| `BalanceBounds.SpreadIsSmall` | python/deltaswamp/distributed.py:1423-1444 | any two bins differ by at most the largest split |
| `BalanceBounds.BalanceIsNearBest` | python/deltaswamp/distributed.py:1423-1444 | for every partition into m groups that keeps each within a limit: m times the load of any group is at most 2m - 1 limits, and 3m times it at most 4m - 1 limits |
| `BalanceBounds.EachIsNearBest` | python/deltaswamp/distributed.py:1430-1443 | the same of every bin of the greedy assignment, against every placement of the same splits |
| `BalanceBounds.BalanceIsDeterministic` | python/deltaswamp/distributed.py:1426-1428 | with distinct paths the result does not depend on the order of the input |
| `Checksum.Crc.CountFilesOf` | crates/native/src/checksum.rs:344-441 | the counting loop advances the file statistics, or leaves the checksum as it was and says so |
| `Checksum.Crc.CarryForwardOver` | crates/native/src/checksum.rs:195-238 | the checksum of the next version, from the one before and the commit's actions |
| `Checksum.Crc.UpsertDomain` | crates/native/src/checksum.rs:444-462 | replace or drop the entry of the same key |
| `Checksum.RetainLoop` | crates/native/src/checksum.rs:458-458 | the entries of other keys, in order |
| `Checksum.FirstCommitOf` | crates/native/src/checksum.rs:259-309 | version 0's own checksum |
| `ChecksumReplay.ChecksumEqualsReplay` | crates/native/src/checksum.rs:165-313 | after any number of commits the checksum says exactly what a replay of the whole log would: counts, bytes, bins, metadata, protocol, domains, transactions |
| `ChecksumReplay.CarryForwardKeeps` | crates/native/src/checksum.rs:165-241 | one step: a true checksum is carried to a true one, or none is written |
| `ChecksumReplay.CarryForwardSucceeds` | crates/native/src/checksum.rs:195-237 | a next checksum exists exactly when the files can be counted and a needed timestamp is there |
| `ChecksumReplay.CountFilesSucceeds` | crates/native/src/checksum.rs:355-422 | on a well-formed log no count goes negative |
| `ChecksumReplay.BinsSumToTotals` | crates/native/src/checksum.rs:407-427 | the bins of a true histogram add up to the file count and the byte total |
| `ChecksumReplay.BinIsItsRange` | crates/native/src/checksum.rs:408-411 | the bin searched for is the one whose range holds the size |
| `ChecksumReplay.UpsertLists` | crates/native/src/checksum.rs:444-462 | an upsert keeps the list one entry per key, and equal to the replayed map |
| `CommitTime.ListedCommits` | crates/native/src/commit_time.rs:74-113 | collecting, sorting and the backward loop keep the unbroken run that ends at the last commit |
| `CommitTime.ListingOrderIsIrrelevant` | crates/native/src/commit_time.rs:78-101 | in whatever order the listing comes, the run is the same where no commit is beyond the last |
| `CommitTime.StoppingLosesNone` | crates/native/src/commit_time.rs:96-100 | in a listing in the order of versions, stopping at the first commit beyond the last leaves out no other |
| `CommitTime.RunIsUnbroken` | crates/native/src/commit_time.rs:101-113 | the run is consecutive, and the commit before it would break it |
| `CommitTime.MonotonizeLoop` | crates/native/src/commit_time.rs:116-126 | the loop carries the last time forward |
| `CommitTime.MonotonizeIsLeast` | crates/native/src/commit_time.rs:116-126 | with headroom, the least strictly increasing times at or above the files' own |
| `CommitTime.MonotonizeIncreasesIffHeadroom` | crates/native/src/commit_time.rs:120-121 | the times are strictly increasing if and only if none runs past the largest 64-bit time |
| `CommitTime.AtOrBeforeIsGreatest` | crates/native/src/commit_time.rs:240-244 | the greatest commit timed at or before the timestamp, none only if there is none |
| `CommitTime.AtOrAfterIsLeast` | crates/native/src/commit_time.rs:245-245 | the least commit timed at or after it, none only if there is none |
| `CommitTime.OwnTimeNamesIt` | crates/native/src/commit_time.rs:198-279 | a commit's own time names that commit, either way |
| `CommitTime.NeighboursAreAdjacent` | crates/native/src/commit_time.rs:239-246 | nothing falls between the commit at or before t and the one at or after t + 1 |
| `CommitTime.LookupSearchesTimeline` | crates/native/src/commit_time.rs:198-279 | across the change to in-commit timestamps the lookup is one search of one timeline |
| `CommitTime.RecreatableRefuses` | crates/native/src/commit_time.rs:226-256 | time travel differs only in refusing versions that can no longer be rebuilt |
| `CommitTime.FeedCoversItsRange` | crates/native/src/changes.rs:44-109 | over the code's own lookup, a feed given by versions, by times, or open at either end covers exactly the commits the request means; one with a time is refused exactly when it means none or names a time after the latest commit |
| `Staging.Stager.FinishOldest` | crates/native/src/commit.rs:500-505 | the oldest write is waited for and its files added and recorded |
| `Staging.Stager.MakeRoom` | crates/native/src/commit.rs:525-531 | waiting leaves room for the next group: at most 16 writes, at most 256 MiB unless one alone |
| `Staging.Stager.Spawn` | crates/native/src/commit.rs:532-543 | the in-flight byte count equals the queue's sum |
| `Staging.Stager.StageInto` | crates/native/src/commit.rs:487-552 | files are added in the order of the stream |
| `Staging.Stager.StageStream` | crates/native/src/commit.rs:447-482 | on any error every file of every write that produced metadata is recorded for removal |
| `Staging.StageAndCommit` | crates/native/src/commit.rs:420-439 | staging, then a commit against the shared store: the log it leaves, the error, and what is deleted |
| `Staging.EveryFileIsRecorded` | crates/native/src/commit.rs:473-478 | each path of each successful write is among those recorded |
| `Staging.DeletesCommittedExactlyWhen` | crates/native/src/commit.rs:404-413 | a file that a version of the store references is deleted if and only if the request was carried out on a free version and a timeout or server error hid it |
| `Staging.AnswerCanDeleteCommittedExactlyWhen` | crates/native/src/commit.rs:404-439 | by the answer alone: some request that brings it makes the cleanup delete a referenced file if and only if it is a timeout or a server error |
| `Staging.CleanupIsExactWhenAnswered` | crates/native/src/commit.rs:404-439 | where the answer is known, the files are deleted if and only if no version references them, but for refusals with an unlisted status, which keep them |
| `Staging.TimeoutDeletesCommitted` | crates/native/src/commit.rs:178-182 | an input that shows it: a timeout that had landed |
| `Identity.SplitLoop` | python/deltaswamp/identity.py:87-142 | the scanning loop splits at dots outside backticks and reads doubled ones |
| `Identity.UnquotedLoop` | python/deltaswamp/identity.py:248-257 | the path-detecting scan keeps what is outside backticks |
| `Identity.ScannersAgree` | python/deltaswamp/identity.py:87-142 | in every text both scanners find the same characters unquoted |
| `Identity.SplitFullName` | python/deltaswamp/identity.py:68-84 | splitting a full name gives its three parts, and is refused exactly when one is empty |
| `Identity.NameRoundTrip` | python/deltaswamp/identity.py:145-215 | the full name of any three non-empty strings parses to those strings: never a path, a scheme or a mount |

## Left out

- Router, capability and property tables, request derivation, catalog, connection, governance, SDK, credential and storage-option code: case lists and plumbing that would add only easy members.
- Arrow, DuckDB, Polars, DataFusion and delta-kernel themselves: their operators are Kleene logic over ordered values, and their conversions are parameters.
- `_coerce` beyond the numeric, text, boolean, date and timestamp rules is a parameter; a comparison of two literals of different types is not modelled.
- Column-name resolution (case-insensitive lookup, nested paths): a column is already its path in the schema.
- Unsigned integer columns, which a Delta table cannot have, in the printed filter.
- The `_polars_sql` and DuckDB printers, and decoding pyarrow's serialized expression: the printer starts at the decoded tree.
- Tokenize: words and numbers are of ASCII letters and digits only, where the source's patterns take other ones too.
- UnescapeLoop: an escape that names half a surrogate pair gives no value, as a string here holds whole code points.
- Text-level JSON, base64, date, time and UUID rendering in the Variant decoder, which stops at the value tree; the shortest digits of a float, which `JavaNumber` starts from.
- 64-bit overflow of the checksum's totals: counts and byte sums are unbounded integers, so the totals are taken to stay below 2^63.
- `worth_writing`, `worth_replaying` and the other decisions on whether a checksum is worth its cost.
- commitInfo patching, error-message wording and the search for status codes in `commit.rs`: an answer is already classified by kind and status.
- Registering an external table after its commit, and forgetting the template: they touch no data file.
- Snapshot reads, backoff, fragment bytes, percent-decoding of paths: a fragment is a set of paths.
- ManagedCommitLosesExactly: a drop of the table by others while its commit is being attempted makes the next read of the catalog fail, which the script says; the name itself is taken to go when the attempts are over.
- CreatingRunIsSafe: asks the driver not to commit fragments again after their files were deleted, as `CreatingRunLandsOnce` does.
- RunOrphansExactlyWhen: of runs in which other writers' creates are undone between this plan's calls, or while a call is on this plan's own table; an undo in the middle of a call on another's is left to `RunsAreSafeExactlyWhen`.
- A transaction id on a creating write, which matters only to fragments without files.
- Two creating plans of one driver that share fragments, and a catalog that registers the same staging location twice.
- BuildIsExact: holds where the builder accepts the predicate; which type errors Arrow itself raises is not modelled.
- ExactlyOnce: asks that the landed check start at or before the version the files were written at, which recorded fragments give; `LandsAgainExactlyWhen` says exactly when that matters.
- NoCommittedFileIsDeleted: asks the driver not to commit fragments again after their files were deleted.
- ManagedRunIsSafe: asks the same of the driver; where others dropped this plan's own table, its files may be deleted.
- DeletesCommittedExactlyWhen: a put-if-absent refused as a 412 is taken to mean that another writer has the version.
- KeepsWhatItKeeps: one direction only, as promised; dropping conjuncts makes the pushed filter weaker.
