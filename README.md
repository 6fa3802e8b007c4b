# TMSU tag-implication engine in Dafny

TMSU tags files. An implication says that a file carrying one tag (optionally with a value) also carries another: `year=2020 → recent`, `dog → mammal`. This project models the two parts of TMSU's storage layer that make implications work.

**Query expansion** (`src/tmsu/storage/file.go`)
- Before a file query reaches the database, every tag and every `=` comparison in the query is replaced by a left-nested `Or` when at least one implication is queued for it. The `Or` holds the leaf itself and one term per queued implication. With an empty queue the leaf is left as it is.
- The queue is a worklist that grows while it is walked. It is seeded with the implications whose implied side is the leaf, and each visited entry queues the implications of its own implying side.
- An implication is queued only if no queued entry has the same implying (tag id, value id) pair. An implication whose implying pair is already queued adds no term. This makes the walk terminate on cyclic implication graphs.
- The same file also holds three guards:
  - the `explicitOnly` switch of the query entry points;
  - the root-path guards `relPath`/`absPath`;
  - `DeleteFileIfUntagged`.

**The implication table** (`src/tmsu/storage/database/implication.go`)
- A table of four-id rows `(tag_id, value_id, implied_tag_id, implied_value_id)`.
- Inserts are insert-or-ignore. There is an exact delete and cascading deletes by tag and by value.
- Two listings read the table: all rows, and rows filtered by implying pair. Both are inner-joined with tags, outer-joined with values, ordered by names, and read row by row into `Implication`s.

## Layout

| file | module | contents |
|---|---|---|
| `wrappers.dfy` | `Wrappers` | `Option`, `Result` |
| `entities.dfy` | `Entities` | tags, values, pairs, implications, errors; the list helpers `ThatImply` and `Any` |
| `query.dfy` | `Query` | the query expression tree |
| `worklist.dfy` | `Worklist` | the worklist fixed point as a function (`Close`, `Closure`), with termination, completeness, soundness, bound and duplicate-freedom |
| `expander.dfy` | `Storage` | the expansion (a `method` with the worklist loop, the recursive descent), the entry points and guards, and the `File` and `Storage` classes |
| `ordering.dfy` | `Ordering` | the `ORDER BY` comparison on nullable name columns |
| `database.dfy` | `Database` | the table as a class `Tx` over a row sequence, the joins, the sort, and the result-set reading loop |
| `scenarios.dfy` | `Scenarios` | worked expansions: a two-tag cycle, a valued implication under `And`/`Not`, and a chain reached through an intermediate tag |

### Modelling choices

- **Worklist.** The loop in `applyImplicationsForTagAndValue` is a `method`. It is proved equal to `OrTerms(expression, Closure(...))`, the leaf OR-ed with one term per entry of the final queue, in queue order.
  - `Closure` is a recursive function that follows the loop step by step. Its termination measure is the number of implying id pairs of the list not yet queued, then the entries left to walk.
  - The recursive descent `addImpliedTagsRecursive` uses the function, because a function cannot call a method.
- **Names versus ids.** Lookup (`ThatImply`) goes by names. Duplicate detection goes by ids, as in the code.
- **Implication table.** `Tx.implications` is a row sequence in table order. `Valid()` says that no row occurs twice, which is the table's four-id key. Under it, the "more than one row deleted" panic of `DeleteImplication` is unreachable, and the model proves it.
- **Listing order.** `ORDER BY` puts NULL first and compares strings by code point. For UTF-8 text that is the engine's default binary collation.
  - Rows with equal keys stay in table order. The engine leaves their order unspecified.
- **Result-set reading.** A result set is a sequence of `Fetch` steps. Each step records:
  - whether `rows.Next` advanced;
  - what `rows.Err` reports at that point;
  - what scanning gave, when it advanced.
- **Outside code.** Code not in these files is passed in as parameters:
  - `_path.RelTo` and `filepath.Join` are function parameters;
  - `storage.Implications` and `FileTagCountByFileId` are `Result` arguments.
- **Dropped retrieval error.** `addImpliedTags` builds the retrieval error with `fmt.Errorf` (file.go:217), throws it away, and returns `nil` (file.go:220). The model follows the code, and the discrepancy is listed under Findings. A failed retrieval is modelled as yielding no implications, as `database.Implications` returns a nil list with its error (implication.go:39, 45), so the expansion then leaves the query as it is.

## Model

| member | source | states |
|---|---|---|
| Entities.ThatImply | src/tmsu/storage/file.go:262 | exactly the implications whose implied tag and value names are the given ones, no more than the list holds |
| Entities.ThatImplyAppend | src/tmsu/storage/file.go:262 | the filter of a concatenation is the concatenation of the filters, so the filter keeps list order and multiplicity |
| Entities.ThatImplyOne | src/tmsu/storage/file.go:262 | a single implication is kept exactly when its implied names are the given ones |
| Entities.AnySameImplyingPair | src/tmsu/storage/file.go:280-284 | the `Any` test with the id predicate holds exactly when the implying (tag id, value id) pair is already among the list's implying pairs |
| Worklist.AddIfNew | src/tmsu/storage/file.go:279-287 | one candidate either leaves the queue unchanged (its pair is queued) or is appended (its pair is new); the queued pairs grow by exactly its pair |
| Worklist.AbsorbPairs | src/tmsu/storage/file.go:279-287 | after the inner loop the queued pairs are exactly the earlier ones plus the batch's pairs |
| Worklist.AbsorbFacts | src/tmsu/storage/file.go:279-287 | absorbing a batch of candidates adds exactly their pairs; every appended entry comes from the batch; appended entries have pairs distinct from all earlier entries |
| Worklist.AbsorbProgress | src/tmsu/storage/file.go:265-287 | absorbing never increases the number of unqueued pairs, and any append strictly decreases it; this is why the loop terminates on cycles |
| Worklist.Close | src/tmsu/storage/file.go:265-288 | the walked queue only grows: the input queue is a prefix of the result |
| Worklist.CloseStep | src/tmsu/storage/file.go:265-288 | one loop iteration: absorb the further implications of entry i, then go on at i+1 |
| Worklist.CloseAppends | src/tmsu/storage/file.go:278-287 | every entry appended during the walk is drawn from the implication list and has an implying pair distinct from all entries before it |
| Worklist.Closure | src/tmsu/storage/file.go:262 | the final queue starts with the seed: the implications that imply the leaf |
| Worklist.ClosureComplete | src/tmsu/storage/file.go:278-287 | the final queue is closed: every implication that implies the implying side of a queued entry has its implying pair queued |
| Worklist.ClosureSound | src/tmsu/storage/file.go:262-287 | every queued entry is an implication of the list, and each implies the leaf or the implying side of an earlier entry |
| Worklist.ClosureBound | src/tmsu/storage/file.go:265-287 | the queue length is at most the seed length plus the number of implying pairs outside the seed |
| Worklist.ClosureDistinct | src/tmsu/storage/file.go:278-287 | if the seed has pairwise distinct implying pairs, each implying pair contributes at most one queue entry, hence at most one term; the seed is not deduplicated, so two listed implications with the same implying pair (for instance two rows that differ only in a dangling implied value id, both listed with the zero value) give two terms |
| Worklist.FreshCount | src/tmsu/storage/file.go:278-287 | entries appended with fresh pairs each add one distinct pair |
| Storage.ImplyingTerm | src/tmsu/storage/file.go:268-276 | a bare tag term exactly when the implying value id is 0, otherwise the equality comparison on the implying tag and value names; the term is a single leaf |
| Storage.OrTermsShape | src/tmsu/storage/file.go:268-276 | the expansion reads back as the original leaf innermost and one term per queue entry, in queue order, left-nested |
| Storage.OrTermsLeaves | src/tmsu/storage/file.go:268-276 | the leaves of an expanded leaf are its own leaves plus the queue's terms |
| Storage.ApplyImplicationsForTagAndValue | src/tmsu/storage/file.go:261-291 | the loop's result is the leaf OR-ed with the terms of the final queue, in order; with an empty queue it is the leaf itself |
| Storage.QueueFurtherImplications | src/tmsu/storage/file.go:278-287 | the inner range loop, with its `Any` test on implying id pairs, yields exactly the queue the function `Absorb` describes |
| Storage.OuterStep | src/tmsu/storage/file.go:265-288 | one outer iteration keeps the walked prefix and the final queue, and does not increase the number of unqueued pairs, decreasing it when the queue grew |
| Storage.ApplyImplicationsForTag | src/tmsu/storage/file.go:248-250 | a tag is expanded as the leaf for its name with value name ""; the tag stays innermost with one disjunct per queued entry |
| Storage.ApplyImplicationsForComparison | src/tmsu/storage/file.go:252-259 | a comparison whose operator is not "=" is returned unchanged whatever the implications; an equality comparison is expanded with one disjunct per queued entry |
| Storage.AddImpliedTagsRecursive | src/tmsu/storage/file.go:223-246 | Empty and non-"=" comparisons pass through; And and Not nodes stay And and Not; Or stays Or |
| Storage.ExpandWithoutImplications | src/tmsu/storage/file.go:223-246 | with no implications, the expansion is the identity on every expression |
| Storage.ExpansionLeaves | src/tmsu/storage/file.go:223-246 | the expansion keeps every leaf of the query and adds only implying terms of the given implications |
| Storage.AddImpliedTags | src/tmsu/storage/file.go:214-221 | never fails; on a retrieval failure the expression comes back unexpanded; otherwise it is expanded against the retrieved list |
| Storage.AddImpliedTagsReporting | src/tmsu/storage/file.go:214-221 | corrected: fails exactly when retrieval fails, with the retrieval error wrapped; otherwise it agrees with the code |
| Storage.Storage.QueryFileCount | src/tmsu/storage/file.go:107-118 | with explicitOnly the expression reaches the database unexpanded; otherwise it is expanded once against the full implication list; the path is made root-relative |
| Storage.Storage.QueryFiles | src/tmsu/storage/file.go:121-134 | the same expansion rule and path rule, with the sort order passed on |
| Storage.Storage.RelPath | src/tmsu/storage/file.go:192-198 | an empty path stays empty; any other path is made relative to the root |
| Storage.Storage.AbsPath | src/tmsu/storage/file.go:206-212 | a null file, an empty directory or one starting with the separator is untouched; otherwise the directory becomes root-joined |
| Storage.AbsDirectoryIdempotent | src/tmsu/storage/file.go:206-212 | applying the guard twice equals applying it once, when joining onto the root gives an absolute path |
| Storage.Storage.DeleteFile | src/tmsu/storage/file.go:166-168 | exactly the given file is removed from the store |
| Storage.Storage.DeleteFileIfUntagged | src/tmsu/storage/file.go:171-183 | a count error is returned and nothing is deleted; a zero count deletes the file; any other count leaves the store as it was |
| Scenarios.CycleExpansion | src/tmsu/storage/file.go:278-287 | for a ↔ b, expanding `a` terminates as `Or(Or(a, b), a)`: the leaf's own pair is not pre-marked, so it reappears once |
| Scenarios.ValuedExpansion | src/tmsu/storage/file.go:223-276 | a valued implying pair yields `year = 2020`; operands under And and Not are expanded in place |
| Scenarios.TransitiveExpansion | src/tmsu/storage/file.go:261-291 | for cat→animal, dog→animal, puppy→dog listed in name order, `animal` expands to `Or(Or(Or(animal, cat), dog), puppy)`: direct implying tags first, then puppy, reached through dog |
| Ordering.StrCmpProperties | src/tmsu/storage/database/implication.go:35 | the name comparison is antisymmetric, in {-1, 0, 1}, and zero exactly on equal names |
| Ordering.StrCmpTransitive | src/tmsu/storage/database/implication.go:35 | the name comparison is transitive |
| Ordering.ColumnCmpProperties | src/tmsu/storage/database/implication.go:35 | a nullable column comparison (NULL first) is antisymmetric and zero exactly on equal values |
| Ordering.ColumnCmpTransitive | src/tmsu/storage/database/implication.go:35 | the nullable column comparison is transitive |
| Ordering.KeyCmpProperties | src/tmsu/storage/database/implication.go:35 | the lexicographic key comparison is antisymmetric and zero exactly on equal keys |
| Ordering.KeyCmpTransitive | src/tmsu/storage/database/implication.go:35 | the lexicographic key comparison is transitive |
| Ordering.KeyLeqTotal | src/tmsu/storage/database/implication.go:35 | any two listing keys are ordered one way or the other |
| Ordering.KeyLeqTransitive | src/tmsu/storage/database/implication.go:35 | the listing order is transitive |
| Database.Filter | src/tmsu/storage/database/implication.go:137-162 | a delete's survivors: exactly the rows satisfying the condition, keeping the key unique |
| Database.Count | src/tmsu/storage/database/implication.go:122-131 | rows affected is zero exactly when no row matches, and at most one under the four-id key |
| Database.Insert | src/tmsu/storage/database/implication.go:35 | inserting a row into the ordered listing adds exactly that row |
| Database.InsertSorted | src/tmsu/storage/database/implication.go:35 | inserting into a sorted listing keeps it sorted |
| Database.SortRows | src/tmsu/storage/database/implication.go:35 | the ORDER BY result is a permutation of the joined rows and is sorted by (tag name, value name, implied tag name, implied value name) |
| Database.ToImplication | src/tmsu/storage/database/implication.go:194-207 | tags are copied; a NULL value becomes the zero value, a present one is copied |
| Database.ReadImplication | src/tmsu/storage/database/implication.go:166-208 | no row exactly when the rows do not advance; an error reported after advancing is returned; then a scan error; otherwise the converted row |
| Database.ReadImplicationChecked | src/tmsu/storage/database/implication.go:166-172 | corrected: the error that stops the iteration is returned; on every advancing step it agrees with the code |
| Database.ReadImplications | src/tmsu/storage/database/implication.go:210-224 | the loop returns what reading the whole result set onto the given list yields |
| Database.ReadAllFetched | src/tmsu/storage/database/implication.go:210-224 | scanned rows are appended in read order, then reading continues with the rest |
| Database.ReadAllComplete | src/tmsu/storage/database/implication.go:210-224 | a result set of scanned rows is read completely and in order by both readers |
| Database.ReadAllAborts | src/tmsu/storage/database/implication.go:212-215 | an error after any number of good rows aborts the whole read with that error and no partial list |
| Database.ReadAllDropsIterationError | src/tmsu/storage/database/implication.go:166-172 | as written, an error that stops the iteration is lost: the rows read so far come back as a successful listing |
| Database.ReadAllCheckedReportsIterationError | src/tmsu/storage/database/implication.go:166-172 | with the corrected reader, that error aborts the read |
| Database.Tx.constructor | src/tmsu/storage/database/implication.go:30-34 | an empty implication table over the given tag and value tables |
| Database.Tx.ValueFor | src/tmsu/storage/database/implication.go:32-34 | the outer join on a value id: NULL exactly when no value row has that id |
| Database.Tx.JoinRow | src/tmsu/storage/database/implication.go:30-34 | a row is dropped exactly when either tag id does not resolve; otherwise it carries both tags and the outer-joined values |
| Database.Tx.JoinRows | src/tmsu/storage/database/implication.go:30-34 | the joined rows are exactly those of resolvable table rows |
| Database.Tx.ListingContents | src/tmsu/storage/database/implication.go:26-35 | an implication is listed exactly when some table row resolves to it, with zero values for missing ones; the listing has one entry per resolvable row |
| Database.Tx.Implications | src/tmsu/storage/database/implication.go:24-49 | returns the whole table, joined, sorted and converted |
| Database.Tx.MatchesParamsIsAnyPair | src/tmsu/storage/database/implication.go:65-75 | with params[2i] = tag id and params[2i+1] = value id of pair i, the OR of conditions holds exactly for rows whose implying pair is one of the pairs |
| Database.Tx.ImplicationsFor | src/tmsu/storage/database/implication.go:52-92 | for a non-empty pair list, exactly the rows whose (tag id, value id) is one of the pairs, joined and ordered like the full listing; with no pair the statement is refused |
| Database.Tx.ImplicationsForAny | src/tmsu/storage/database/implication.go:63-78 | corrected: the same filter for every pair list; no pair selects no implication |
| Database.Tx.AddImplication | src/tmsu/storage/database/implication.go:95-106 | insert-or-ignore: an existing row leaves the table unchanged, a new one is appended; the key stays unique |
| Database.InsertedKeepsKey | src/tmsu/storage/database/implication.go:96-98 | after inserting, the row is stored exactly once and the key stays unique; inserting twice equals inserting once; nothing else is added |
| Database.Tx.DeleteImplication | src/tmsu/storage/database/implication.go:109-134 | removes exactly the row matching all four ids; if none matches, a NoSuchImplication error and the table unchanged; more than one match cannot happen under the key |
| Database.Tx.DeleteImplicationsByTagId | src/tmsu/storage/database/implication.go:137-148 | removes every row naming the tag as implying or implied tag; all other rows stay |
| Database.Tx.DeleteImplicationsByValueId | src/tmsu/storage/database/implication.go:151-162 | removes every row naming the value as implying or implied value; all other rows stay |

## Left out

- SQL statement text and the engine are not modelled. Each statement's effect is written out on the row sequence.
- Database.Tx.AddImplication: an error returned by `Exec` is not modelled; the insert always succeeds.
- Database.Tx.DeleteImplication: errors from `Exec` and from `RowsAffected` are not modelled. The panic for more than one affected row is shown unreachable under the key.
- Database.Tx.DeleteImplicationsByTagId: an error returned by `Exec` is not modelled.
- Database.Tx.DeleteImplicationsByValueId: an error returned by `Exec` is not modelled.
- Database.Tx.Implications: a failure of `tx.Query` is not modelled. The result set it reads holds only scanned rows. Reading a failing result set is modelled by `ReadImplications` on its own.
- Database.Tx.ImplicationsFor: a failure of `tx.Query` on a well-formed statement is not modelled. The result set it reads holds only scanned rows. Reading a failing result set is modelled by `ReadImplications` on its own.
- Database.SortRows: rows with equal sort keys keep their table order. The engine does not specify their order.
- `database.QueryFileCount`, `database.QueryFiles` and the other `database.*` file queries are not part of this model. The entry points return the request they hand to the database layer (`FileQuery`), not its answer.
- `absPaths`, which applies `absPath` to each file of a result, is not modelled beyond `AbsPath` itself.
- Storage.Storage.DeleteFile: a failure of `database.DeleteFile` is not modelled; the delete always succeeds.
- `_path.RelTo` and `filepath.Join` are not part of this model. They are function parameters.
- Storage.Storage.AbsPath: the separator is fixed to `/`, the Unix value of `filepath.Separator`; on Windows it is `\`, and that platform is not modelled.
- `FileTagCountByFileId` and `storage.Implications` are not part of this model. Their results are arguments.
- The `default` branch of the type switch in `addImpliedTagsRecursive`, which panics, has no counterpart: the expression type here is closed.
- Fingerprints, modification times, sizes, sort-order strings and the formatting of error messages are not modelled.
- Ids are unbounded naturals. The fixed-width unsigned id types and the initial slice capacity play no part in the behaviour modelled.

## Findings

| source | as written | input that shows it | evidently intended | confidence | as-written member | corrected member |
|---|---|---|---|---|---|---|
| src/tmsu/storage/file.go:214-221 | the retrieval error is built with `fmt.Errorf` and discarded; `nil` is returned | `storage.Implications` fails: the query runs unexpanded and no error reaches the caller | the wrapped error is returned | high; not executed | Storage.AddImpliedTags | Storage.AddImpliedTagsReporting |
| src/tmsu/storage/database/implication.go:166-172 | `rows.Err()` is consulted only after `rows.Next()` has advanced, where it reports nothing; an error that stops the iteration is dropped | a result set that yields k rows and then stops with an error: the k rows are returned as a complete listing | the error aborts the read | medium; not executed | Database.ReadAllDropsIterationError | Database.ReadImplicationChecked |
| src/tmsu/storage/database/implication.go:63-78 | with an empty pair list the statement has `WHERE` directly followed by `ORDER BY` | `ImplicationsFor(tx, [])`: the engine refuses the statement and an error is returned | no pair selects no implication | medium; not executed | Database.Tx.ImplicationsFor | Database.Tx.ImplicationsForAny |

The entry points `QueryFileCount` and `QueryFiles` call `AddImpliedTags` as written. The listings call `ReadImplications` as written. They read result sets without errors, where the corrected reader gives the same result (`Database.ReadAllComplete`).
