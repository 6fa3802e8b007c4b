/** The query side of the file store (src/tmsu/storage/file.go): expanding
    a query with the tag implications, the entry points that decide whether
    to expand, the path guards and the untagged-file deletion. */
module Storage {
  import opened Wrappers
  import opened Entities
  import opened Worklist
  import Query

  // ---------------------------------------------------------------------
  // Building the expanded leaf.

  /** The OR-term one queued implication contributes: a bare tag when the
      implying value is the zero value (id 0), otherwise an equality
      comparison on the implying tag and value. */
  function ImplyingTerm(imp: Implication): (t: Query.Expression)
    ensures Query.Leaves(t) == {t}
    ensures t.Tag? <==> imp.implyingValue.id == 0
    ensures t.Tag? ==> t.name == imp.implyingTag.name
    ensures t.Comparison? ==> t == Query.Comparison(imp.implyingTag.name, "=", imp.implyingValue.name)
  {
    if imp.implyingValue.id != 0 then
      Query.Comparison(imp.implyingTag.name, "=", imp.implyingValue.name)
    else
      Query.Tag(imp.implyingTag.name)
  }

  /** `leaf`, OR-ed on the right with the term of each queued implication in
      queue order: Or(Or(leaf, t1), t2)... */
  function OrTerms(leaf: Query.Expression, queue: seq<Implication>): Query.Expression
    decreases |queue|
  {
    if queue == [] then leaf
    else Query.Or(OrTerms(leaf, queue[..|queue| - 1]), ImplyingTerm(queue[|queue| - 1]))
  }

  /** The right operands along the left spine of nested Or nodes. */
  function Disjuncts(e: Query.Expression): seq<Query.Expression>
  {
    if e.Or? then Disjuncts(e.left) + [e.right] else []
  }

  /** The innermost left operand of nested Or nodes. */
  function Innermost(e: Query.Expression): Query.Expression
  {
    if e.Or? then Innermost(e.left) else e
  }

  /** The expanded leaf can be read back: the innermost operand is the leaf
      itself and the disjuncts are exactly one term per queued implication,
      in queue order. */
  lemma {:induction false} OrTermsShape(leaf: Query.Expression, queue: seq<Implication>)
    requires !leaf.Or?
    ensures Innermost(OrTerms(leaf, queue)) == leaf
    ensures |Disjuncts(OrTerms(leaf, queue))| == |queue|
    ensures forall k | 0 <= k < |queue| :: Disjuncts(OrTerms(leaf, queue))[k] == ImplyingTerm(queue[k])
    decreases |queue|
  {
    if queue != [] {
      var init := queue[..|queue| - 1];
      OrTermsShape(leaf, init);
      forall k | 0 <= k < |init| ensures init[k] == queue[k] { }
    }
  }

  /** The leaves of an expanded leaf: the leaf's own and one term per queued
      implication. */
  lemma {:induction false} OrTermsLeaves(leaf: Query.Expression, queue: seq<Implication>)
    ensures Query.Leaves(OrTerms(leaf, queue)) ==
              Query.Leaves(leaf) + set imp | imp in queue :: ImplyingTerm(imp)
    decreases |queue|
  {
    if queue != [] {
      var init, last := queue[..|queue| - 1], queue[|queue| - 1];
      OrTermsLeaves(leaf, init);
      assert queue == init + [last];
      assert (set imp | imp in queue :: ImplyingTerm(imp)) ==
             (set imp | imp in init :: ImplyingTerm(imp)) + {ImplyingTerm(last)};
    }
  }

  // ---------------------------------------------------------------------
  // The worklist loop.

  /** applyImplicationsForTagAndValue: a worklist seeded with the
      implications that imply tagName[=valueName], walked by index while it
      grows; each entry OR-s its term onto the expression and queues the
      implications of its implying side whose implying id pair is not
      queued yet. */
  method ApplyImplicationsForTagAndValue(expression: Query.Expression, tagName: string, valueName: string,
                                         implications: seq<Implication>)
    returns (r: Query.Expression)
    ensures r == OrTerms(expression, Closure(implications, tagName, valueName))
  {
    var relevantImplications := ThatImply(implications, tagName, valueName);
    ghost var closure := Closure(implications, tagName, valueName);
    r := expression;
    var index := 0;
    while index < |relevantImplications|
      invariant index <= |relevantImplications|
      invariant Close(implications, relevantImplications, index) == closure
      invariant r == OrTerms(expression, relevantImplications[..index])
      decreases |Unseen(implications, relevantImplications)|, |relevantImplications| - index
    {
      var relevantImplication := relevantImplications[index];
      OrTermsSnoc(expression, relevantImplications, index);
      r := Query.Or(r, ImplyingTerm(relevantImplication));

      var furtherImplications := ThatImply(implications, relevantImplication.implyingTag.name,
                                           relevantImplication.implyingValue.name);
      ghost var queued := relevantImplications;
      relevantImplications := QueueFurtherImplications(relevantImplications, furtherImplications);
      OuterStep(implications, queued, index);
      index := index + 1;
    }
    assert relevantImplications[..index] == relevantImplications;
  }

  /** The inner range loop: each further implication is appended unless
      an entry with the same implying (tag id, value id) pair is queued. */
  method QueueFurtherImplications(relevantImplications: seq<Implication>, furtherImplications: seq<Implication>)
    returns (queue: seq<Implication>)
    ensures queue == Absorb(relevantImplications, furtherImplications)
  {
    queue := relevantImplications;
    for j := 0 to |furtherImplications|
      invariant Absorb(queue, furtherImplications[j..]) == Absorb(relevantImplications, furtherImplications)
    {
      var furtherImplication := furtherImplications[j];
      AbsorbStep(queue, furtherImplications, j);
      AnySameImplyingPair(queue, furtherImplication);
      AddIfNewChoice(queue, furtherImplication);
      if !Any(queue, imp => ImplyingIds(imp) == ImplyingIds(furtherImplication)) {
        queue := queue + [furtherImplication];
      }
    }
    assert furtherImplications[|furtherImplications|..] == [];
  }

  /** One outer iteration preserves the loop's invariants and decreases
      its measure. */
  lemma OuterStep(impls: seq<Implication>, queued: seq<Implication>, index: nat)
    requires index < |queued|
    ensures var next := Absorb(queued, Further(impls, queued[index]));
            Close(impls, next, index + 1) == Close(impls, queued, index) &&
            next[..index + 1] == queued[..index + 1] &&
            |Unseen(impls, next)| <= |Unseen(impls, queued)| &&
            (|next| > |queued| ==> |Unseen(impls, next)| < |Unseen(impls, queued)|)
  {
    var further := Further(impls, queued[index]);
    AbsorbProgress(impls, queued, further);
    CloseStep(impls, queued, index);
    PrefixSlice(queued, Absorb(queued, further), index + 1);
  }

  lemma OrTermsSnoc(leaf: Query.Expression, s: seq<Implication>, n: nat)
    requires n < |s|
    ensures OrTerms(leaf, s[..n + 1]) == Query.Or(OrTerms(leaf, s[..n]), ImplyingTerm(s[n]))
  {
    assert s[..n + 1][..n] == s[..n];
  }

  lemma PrefixSlice(a: seq<Implication>, b: seq<Implication>, n: nat)
    requires a <= b && n <= |a|
    ensures b[..n] == a[..n]
  {
  }

  lemma AbsorbStep(list: seq<Implication>, further: seq<Implication>, j: nat)
    requires j < |further|
    ensures Absorb(list, further[j..]) == Absorb(AddIfNew(list, further[j]), further[j + 1..])
  {
    assert further[j..][1..] == further[j + 1..];
  }

  lemma AddIfNewChoice(list: seq<Implication>, f: Implication)
    ensures ImplyingIds(f) in IdPairs(list) ==> AddIfNew(list, f) == list
    ensures ImplyingIds(f) !in IdPairs(list) ==> AddIfNew(list, f) == list + [f]
  {
    IdPairsAppend(list, f);
  }

  // ---------------------------------------------------------------------
  // The recursive descent.

  /** applyImplicationsForTag: a bare tag is the leaf for its name with
      the empty value name; it stays innermost, one term per queued entry. */
  function ApplyImplicationsForTag(name: string, implications: seq<Implication>): (r: Query.Expression)
    ensures Innermost(r) == Query.Tag(name)
    ensures |Disjuncts(r)| == |Closure(implications, name, "")|
    ensures Closure(implications, name, "") == [] ==> r == Query.Tag(name)
  {
    OrTermsShape(Query.Tag(name), Closure(implications, name, ""));
    OrTerms(Query.Tag(name), Closure(implications, name, ""))
  }

  /** applyImplicationsForComparison: only an equality comparison is
      expanded, as the leaf for its tag and value names. */
  function ApplyImplicationsForComparison(tag: string, operator: string, value: string,
                                          implications: seq<Implication>): (r: Query.Expression)
    ensures operator != "=" ==> r == Query.Comparison(tag, operator, value)
    ensures Innermost(r) == Query.Comparison(tag, operator, value)
    ensures operator == "=" ==> |Disjuncts(r)| == |Closure(implications, tag, value)|
  {
    OrTermsShape(Query.Comparison(tag, operator, value), Closure(implications, tag, value));
    if operator != "=" then Query.Comparison(tag, operator, value)
    else OrTerms(Query.Comparison(tag, operator, value), Closure(implications, tag, value))
  }

  /** addImpliedTagsRecursive: And, Or and Not are rebuilt with each operand
      expanded; tags and equality comparisons are expanded; other comparisons
      and Empty pass through. */
  function AddImpliedTagsRecursive(e: Query.Expression, implications: seq<Implication>): (r: Query.Expression)
    ensures e.Empty? ==> r == e
    ensures e.Comparison? && e.operator != "=" ==> r == e
    ensures e.And? <==> r.And?
    ensures e.Not? <==> r.Not?
    ensures e.Or? ==> r.Or?
  {
    match e
    case Or(left, right) =>
      Query.Or(AddImpliedTagsRecursive(left, implications), AddImpliedTagsRecursive(right, implications))
    case And(left, right) =>
      Query.And(AddImpliedTagsRecursive(left, implications), AddImpliedTagsRecursive(right, implications))
    case Not(operand) =>
      Query.Not(AddImpliedTagsRecursive(operand, implications))
    case Tag(name) =>
      ApplyImplicationsForTag(name, implications)
    case Comparison(tag, operator, value) =>
      ApplyImplicationsForComparison(tag, operator, value, implications)
    case Empty =>
      e
  }

  /** With no implications the expansion is the identity. */
  lemma {:induction false} ExpandWithoutImplications(e: Query.Expression)
    ensures AddImpliedTagsRecursive(e, []) == e
  {
    match e
    case Or(left, right) =>
      ExpandWithoutImplications(left);
      ExpandWithoutImplications(right);
    case And(left, right) =>
      ExpandWithoutImplications(left);
      ExpandWithoutImplications(right);
    case Not(operand) =>
      ExpandWithoutImplications(operand);
    case Tag(name) =>
      assert Closure([], name, "") == [];
    case Comparison(tag, operator, value) =>
      assert Closure([], tag, value) == [];
    case Empty =>
  }

  /** The expansion keeps every leaf of the query and adds only terms built
      from the implying side of the given implications. */
  lemma {:induction false} ExpansionLeaves(e: Query.Expression, implications: seq<Implication>)
    ensures Query.Leaves(e) <= Query.Leaves(AddImpliedTagsRecursive(e, implications))
    ensures Query.Leaves(AddImpliedTagsRecursive(e, implications)) <=
              Query.Leaves(e) + set imp | imp in implications :: ImplyingTerm(imp)
  {
    var terms := set imp | imp in implications :: ImplyingTerm(imp);
    match e
    case Or(left, right) =>
      ExpansionLeaves(left, implications);
      ExpansionLeaves(right, implications);
    case And(left, right) =>
      ExpansionLeaves(left, implications);
      ExpansionLeaves(right, implications);
    case Not(operand) =>
      ExpansionLeaves(operand, implications);
    case Tag(name) =>
      LeafLeaves(e, name, "", implications);
    case Comparison(tag, operator, value) =>
      if operator == "=" {
        LeafLeaves(e, tag, value, implications);
      }
    case Empty =>
  }

  lemma LeafLeaves(leaf: Query.Expression, tagName: string, valueName: string, implications: seq<Implication>)
    ensures Query.Leaves(leaf) <= Query.Leaves(OrTerms(leaf, Closure(implications, tagName, valueName)))
    ensures Query.Leaves(OrTerms(leaf, Closure(implications, tagName, valueName))) <=
              Query.Leaves(leaf) + set imp | imp in implications :: ImplyingTerm(imp)
  {
    var queue := Closure(implications, tagName, valueName);
    OrTermsLeaves(leaf, queue);
    ClosureSound(implications, tagName, valueName);
    forall imp | imp in queue ensures imp in implications {
      var k :| 0 <= k < |queue| && queue[k] == imp;
    }
  }

  // ---------------------------------------------------------------------
  // Entry points and guards of the file store.

  /** addImpliedTags: expands against the stored implications. A failure to
      retrieve them is not reported (the error value is built and dropped),
      so the expansion then runs against an empty list. */
  function AddImpliedTags(expression: Query.Expression, implications: Result<seq<Implication>, Error>)
    : (r: Result<Query.Expression, Error>)
    ensures r.Success?
    ensures implications.Failure? ==> r.value == expression
    ensures implications.Success? ==> r.value == AddImpliedTagsRecursive(expression, implications.value)
  {
    var retrieved := if implications.Success? then implications.value else [];
    ExpandWithoutImplications(expression);
    Success(AddImpliedTagsRecursive(expression, retrieved))
  }

  /** addImpliedTags as evidently intended: the wrapped retrieval error is
      returned instead of being built and dropped. */
  function AddImpliedTagsReporting(expression: Query.Expression, implications: Result<seq<Implication>, Error>)
    : (r: Result<Query.Expression, Error>)
    ensures r.Failure? <==> implications.Failure?
    ensures implications.Failure? ==> r.error == ImplicationsUnavailable(implications.error)
    ensures implications.Success? ==> r == AddImpliedTags(expression, implications)
  {
    match implications
    case Failure(err) => Failure(ImplicationsUnavailable(err))
    case Success(_) => AddImpliedTags(expression, implications)
  }

  /** The request a query entry point hands to the database layer. */
  datatype FileQuery =
    | CountQuery(expression: Query.Expression, path: string)
    | FilesQuery(expression: Query.Expression, path: string, sort: string)

  /** The separator byte of the host's paths (filepath.Separator on Unix). */
  const Separator: char := '/'

  /** A directory absPath leaves as it is: empty, or already absolute. */
  predicate KeepsDirectory(directory: string)
  {
    directory == "" || directory[0] == Separator
  }

  /** The directory absPath gives a file: the root joined with a relative
      directory; empty and absolute directories are kept. */
  function AbsDirectory(rootPath: string, directory: string, join: (string, string) -> string): string
  {
    if KeepsDirectory(directory) then directory else join(rootPath, directory)
  }

  /** Materialising a directory twice is the same as once, provided joining
      onto the (absolute) root yields an absolute path. */
  lemma AbsDirectoryIdempotent(rootPath: string, directory: string, join: (string, string) -> string)
    requires !KeepsDirectory(directory) ==> KeepsDirectory(join(rootPath, directory))
    ensures AbsDirectory(rootPath, AbsDirectory(rootPath, directory, join), join) ==
            AbsDirectory(rootPath, directory, join)
  {
  }

  /** A tracked file; only its directory is rewritten in place. */
  class File {
    const id: FileId
    const name: string
    var directory: string

    constructor (id: FileId, directory: string, name: string)
      ensures this.id == id && this.directory == directory && this.name == name
    {
      this.id := id;
      this.directory := directory;
      this.name := name;
    }
  }

  /** The file store: its root path and the ids of the files it tracks. */
  class Storage {
    const rootPath: string
    var fileIds: set<FileId>

    constructor (rootPath: string, fileIds: set<FileId>)
      ensures this.rootPath == rootPath && this.fileIds == fileIds
    {
      this.rootPath := rootPath;
      this.fileIds := fileIds;
    }

    /** relPath: an empty path stays empty (it means "no path scope");
        any other path is made relative to the root by `relTo`. */
    function RelPath(path: string, relTo: (string, string) -> string): (r: string)
      ensures path == "" ==> r == ""
      ensures path != "" ==> r == relTo(path, rootPath)
    {
      if path == "" then "" else relTo(path, rootPath)
    }

    /** absPath: a null file, an empty directory and an absolute directory
        are left alone; otherwise the directory is joined onto the root. */
    method AbsPath(file: File?, join: (string, string) -> string)
      modifies file
      ensures file != null ==> file.directory == AbsDirectory(rootPath, old(file.directory), join)
    {
      if file == null || file.directory == "" || file.directory[0] == Separator {
        return;
      }
      file.directory := join(rootPath, file.directory);
    }

    /** QueryFileCount: unless explicitOnly, the expression is expanded once
        against the full implication list before it reaches the database. */
    function QueryFileCount(expression: Query.Expression, path: string, explicitOnly: bool,
                            implications: Result<seq<Implication>, Error>,
                            relTo: (string, string) -> string): (r: Result<FileQuery, Error>)
      ensures r.Success? && r.value.CountQuery?
      ensures r.value.path == RelPath(path, relTo)
      ensures explicitOnly ==> r.value.expression == expression
      ensures !explicitOnly && implications.Success? ==>
                r.value.expression == AddImpliedTagsRecursive(expression, implications.value)
      ensures !explicitOnly && implications.Failure? ==> r.value.expression == expression
    {
      var expanded := if explicitOnly then Success(expression) else AddImpliedTags(expression, implications);
      match expanded
      case Failure(err) => Failure(err)
      case Success(e) => Success(CountQuery(e, RelPath(path, relTo)))
    }

    /** QueryFiles: the same expansion rule; the sort order is passed on. */
    function QueryFiles(expression: Query.Expression, path: string, explicitOnly: bool, sort: string,
                        implications: Result<seq<Implication>, Error>,
                        relTo: (string, string) -> string): (r: Result<FileQuery, Error>)
      ensures r.Success? && r.value.FilesQuery? && r.value.sort == sort
      ensures r.value.path == RelPath(path, relTo)
      ensures explicitOnly ==> r.value.expression == expression
      ensures !explicitOnly && implications.Success? ==>
                r.value.expression == AddImpliedTagsRecursive(expression, implications.value)
      ensures !explicitOnly && implications.Failure? ==> r.value.expression == expression
    {
      var expanded := if explicitOnly then Success(expression) else AddImpliedTags(expression, implications);
      match expanded
      case Failure(err) => Failure(err)
      case Success(e) => Success(FilesQuery(e, RelPath(path, relTo), sort))
    }

    /** DeleteFile: removes the file's row. */
    method DeleteFile(fileId: FileId)
      modifies this
      ensures fileIds == old(fileIds) - {fileId}
    {
      fileIds := fileIds - {fileId};
    }

    /** DeleteFileIfUntagged: `tagCount` is what FileTagCountByFileId
        reports. A count error is returned without deleting; the file is
        deleted only when its count is zero. */
    method DeleteFileIfUntagged(fileId: FileId, tagCount: Result<nat, Error>) returns (err: Option<Error>)
      modifies this
      ensures tagCount.Failure? ==> err == Some(tagCount.error) && fileIds == old(fileIds)
      ensures tagCount.Success? && tagCount.value == 0 ==> err == None && fileIds == old(fileIds) - {fileId}
      ensures tagCount.Success? && tagCount.value != 0 ==> err == None && fileIds == old(fileIds)
    {
      if tagCount.Failure? {
        return Some(tagCount.error);
      }
      if tagCount.value == 0 {
        DeleteFile(fileId);
      }
      return None;
    }
  }
}
