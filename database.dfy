/** The implication table and its operations
    (src/tmsu/storage/database/implication.go), with the SQL statements'
    effect written out on an abstract table instead of query text. */
module Database {
  import opened Wrappers
  import opened Entities
  import opened Ordering

  // ---------------------------------------------------------------------
  // Rows, joins and the result set.

  /** A row of the implication table: the four ids that make up its key. */
  datatype Row = Row(tagId: TagId, valueId: ValueId, impliedTagId: TagId, impliedValueId: ValueId)

  function RowOf(pair: TagValuePair, impliedPair: TagValuePair): Row
  {
    Row(pair.tagId, pair.valueId, impliedPair.tagId, impliedPair.valueId)
  }

  /** One row of the listing query: both tags come from inner joins; a value
      is None (its columns NULL) when the outer join found no value row. */
  datatype Joined = Joined(implyingTag: Tag, implyingValue: Option<Value>,
                           impliedTag: Tag, impliedValue: Option<Value>)

  /** One readImplication step on a result set: either rows.Next did not
      advance, with what rows.Err reports then, or it advanced, with what
      rows.Err reports then and what scanning the row gives. */
  datatype Fetch =
    | End(err: Option<Error>)
    | Advanced(err: Option<Error>, scanned: Result<Joined, Error>)

  ghost predicate NoDuplicates(rows: seq<Row>)
  {
    forall i, j | 0 <= i < j < |rows| :: rows[i] != rows[j]
  }

  /** The rows of `rows` that satisfy `keep`, in table order. */
  function Filter(rows: seq<Row>, keep: Row -> bool): (r: seq<Row>)
    ensures forall x :: x in r <==> x in rows && keep(x)
    ensures NoDuplicates(rows) ==> NoDuplicates(r)
    ensures |r| <= |rows|
  {
    if rows == [] then []
    else
      var rest := Filter(rows[1..], keep);
      assert NoDuplicates(rows) ==> NoDuplicates(rows[1..]) && rows[0] !in rows[1..];
      if keep(rows[0]) then [rows[0]] + rest else rest
  }

  /** The number of rows equal to `row`. */
  function Count(rows: seq<Row>, row: Row): (n: nat)
    ensures n == 0 <==> row !in rows
    ensures NoDuplicates(rows) ==> n <= 1
  {
    if rows == [] then 0
    else
      assert NoDuplicates(rows) ==> NoDuplicates(rows[1..]) && rows[0] !in rows[1..];
      (if rows[0] == row then 1 else 0) + Count(rows[1..], row)
  }

  /** The ORDER BY columns of a listed row. */
  function SortKey(j: Joined): seq<Option<string>>
  {
    [Some(j.implyingTag.name), NameOf(j.implyingValue), Some(j.impliedTag.name), NameOf(j.impliedValue)]
  }

  function NameOf(v: Option<Value>): Option<string>
  {
    match v
    case None => None
    case Some(value) => Some(value.name)
  }

  predicate RowLeq(a: Joined, b: Joined)
  {
    KeyLeq(SortKey(a), SortKey(b))
  }

  ghost predicate Sorted(s: seq<Joined>)
  {
    forall i, j | 0 <= i < j < |s| :: RowLeq(s[i], s[j])
  }

  /** Places x before the first row it sorts no later than. */
  function Insert(x: Joined, s: seq<Joined>): (r: seq<Joined>)
    ensures multiset(r) == multiset(s) + multiset{x}
  {
    if s == [] then [x]
    else if RowLeq(x, s[0]) then [x] + s
    else
      assert s == [s[0]] + s[1..];
      [s[0]] + Insert(x, s[1..])
  }

  /** Inserting into a sorted sequence keeps it sorted. */
  lemma {:induction false} InsertSorted(x: Joined, s: seq<Joined>)
    requires Sorted(s)
    ensures Sorted(Insert(x, s))
    decreases |s|
  {
    if s == [] {
    } else if RowLeq(x, s[0]) {
      InsertFront(x, s);
    } else {
      assert Sorted(s[1..]);
      InsertSorted(x, s[1..]);
      KeyLeqTotal(SortKey(x), SortKey(s[0]));
      SortedCons(s[0], Insert(x, s[1..]), s[1..], x);
    }
  }

  lemma InsertFront(x: Joined, s: seq<Joined>)
    requires Sorted(s) && s != [] && RowLeq(x, s[0])
    ensures Sorted([x] + s)
  {
    forall j | 0 < j < |[x] + s| ensures RowLeq(x, ([x] + s)[j]) {
      if j > 1 {
        KeyLeqTransitive(SortKey(x), SortKey(s[0]), SortKey(s[j - 1]));
      }
    }
  }

  /** A head no later than every element of the tail, and than x, heads a
      sorted sequence holding the tail's elements and x. */
  lemma SortedCons(head: Joined, rest: seq<Joined>, tail: seq<Joined>, x: Joined)
    requires Sorted(rest) && Sorted([head] + tail)
    requires multiset(rest) == multiset(tail) + multiset{x}
    requires RowLeq(head, x)
    ensures Sorted([head] + rest)
  {
    forall j | 0 <= j < |rest| ensures RowLeq(head, rest[j]) {
      assert rest[j] in multiset(rest);
      if rest[j] != x {
        assert rest[j] in multiset(tail);
        var k :| 0 <= k < |tail| && tail[k] == rest[j];
        assert ([head] + tail)[0] == head && ([head] + tail)[k + 1] == rest[j];
      }
    }
  }

  /** The engine's ORDER BY: a sorted permutation. Rows with equal keys keep
      their table order (the engine leaves their order unspecified). */
  function SortRows(s: seq<Joined>): (r: seq<Joined>)
    ensures multiset(r) == multiset(s)
    ensures Sorted(r)
  {
    if s == [] then []
    else
      assert s == [s[0]] + s[1..];
      InsertSorted(s[0], SortRows(s[1..]));
      Insert(s[0], SortRows(s[1..]))
  }

  // ---------------------------------------------------------------------
  // Reading a result set.

  /** readImplication's row conversion: a NULL value becomes the zero value. */
  function ToImplication(j: Joined): (imp: Implication)
    ensures imp.implyingTag == j.implyingTag && imp.impliedTag == j.impliedTag
    ensures j.implyingValue.None? ==> imp.implyingValue == ZeroValue
    ensures j.impliedValue.None? ==> imp.impliedValue == ZeroValue
    ensures j.implyingValue.Some? ==> imp.implyingValue == j.implyingValue.value
    ensures j.impliedValue.Some? ==> imp.impliedValue == j.impliedValue.value
  {
    Implication(j.implyingTag, if j.implyingValue.Some? then j.implyingValue.value else ZeroValue,
                j.impliedTag, if j.impliedValue.Some? then j.impliedValue.value else ZeroValue)
  }

  /** readImplication: no row once rows.Next does not advance, whatever
      rows.Err says then; an error reported after advancing, or a failed
      scan, is returned; otherwise the converted row. */
  function ReadImplication(f: Fetch): (r: Result<Option<Implication>, Error>)
    ensures r == Success(None) <==> f.End?
    ensures f.Advanced? && f.err.Some? ==> r == Failure(f.err.value)
    ensures f.Advanced? && f.err.None? && f.scanned.Failure? ==> r == Failure(f.scanned.error)
    ensures f.Advanced? && f.err.None? && f.scanned.Success? ==> r == Success(Some(ToImplication(f.scanned.value)))
  {
    match f
    case End(_) => Success(None)
    case Advanced(Some(err), _) => Failure(err)
    case Advanced(None, Failure(err)) => Failure(err)
    case Advanced(None, Success(row)) => Success(Some(ToImplication(row)))
  }

  /** readImplication with the error that stopped the iteration reported:
      rows.Err consulted once rows.Next does not advance. */
  function ReadImplicationChecked(f: Fetch): (r: Result<Option<Implication>, Error>)
    ensures f.End? ==> r == (if f.err.Some? then Failure(f.err.value) else Success(None))
    ensures f.Advanced? ==> r == ReadImplication(f)
  {
    match f
    case End(Some(err)) => Failure(err)
    case _ => ReadImplication(f)
  }

  /** Reading the rest of a result set onto `acc` with the row reader
      `read`; past its end the result set does not advance and reports no
      error. */
  function ReadAll(read: Fetch -> Result<Option<Implication>, Error>, rows: seq<Fetch>, acc: seq<Implication>)
    : Result<seq<Implication>, Error>
  {
    if rows == [] then
      match read(End(None))
      case Failure(err) => Failure(err)
      case Success(None) => Success(acc)
      case Success(Some(imp)) => Success(acc + [imp])
    else
      match read(rows[0])
      case Failure(err) => Failure(err)
      case Success(None) => Success(acc)
      case Success(Some(imp)) => ReadAll(read, rows[1..], acc + [imp])
  }

  /** readImplications: reads rows until readImplication returns no row,
      appending each to `implications`; any error aborts the read. */
  method ReadImplications(rows: seq<Fetch>, implications: seq<Implication>)
    returns (r: Result<seq<Implication>, Error>)
    ensures r == ReadAll(ReadImplication, rows, implications)
  {
    var acc := implications;
    var pos := 0;
    while true
      invariant pos <= |rows|
      invariant ReadAll(ReadImplication, rows[pos..], acc) == ReadAll(ReadImplication, rows, implications)
      decreases |rows| - pos
    {
      var fetch := if pos < |rows| then rows[pos] else End(None);
      var implication := ReadImplication(fetch);
      match implication
      case Failure(err) =>
        return Failure(err);
      case Success(None) =>
        break;
      case Success(Some(imp)) =>
        assert rows[pos..][1..] == rows[pos + 1..];
        acc := acc + [imp];
        pos := pos + 1;
    }
    return Success(acc);
  }

  /** The result set the engine produces for a list of joined rows. */
  function FetchAll(s: seq<Joined>): (r: seq<Fetch>)
    ensures |r| == |s|
    ensures forall k | 0 <= k < |s| :: r[k] == Advanced(None, Success(s[k]))
  {
    if s == [] then [] else [Advanced(None, Success(s[0]))] + FetchAll(s[1..])
  }

  /** The converted rows, in order. */
  function Converted(s: seq<Joined>): (r: seq<Implication>)
    ensures |r| == |s|
    ensures forall k | 0 <= k < |s| :: r[k] == ToImplication(s[k])
  {
    if s == [] then [] else [ToImplication(s[0])] + Converted(s[1..])
  }

  /** The converted rows are exactly the conversions of the rows. */
  lemma ConvertedMembers(s: seq<Joined>, imp: Implication)
    ensures imp in Converted(s) <==> exists j :: j in s && ToImplication(j) == imp
  {
    if imp in Converted(s) {
      var k :| 0 <= k < |s| && Converted(s)[k] == imp;
      assert s[k] in s;
    }
    if exists j :: j in s && ToImplication(j) == imp {
      var j :| j in s && ToImplication(j) == imp;
      var k :| 0 <= k < |s| && s[k] == j;
      assert Converted(s)[k] == imp;
    }
  }

  /** A row reader that converts every cleanly scanned row. */
  ghost predicate ConvertsRows(read: Fetch -> Result<Option<Implication>, Error>)
  {
    forall j :: read(Advanced(None, Success(j))) == Success(Some(ToImplication(j)))
  }

  /** Scanned rows are appended in read order, then reading goes on. */
  lemma {:induction false} ReadAllFetched(read: Fetch -> Result<Option<Implication>, Error>,
                                          s: seq<Joined>, tail: seq<Fetch>, acc: seq<Implication>)
    requires ConvertsRows(read)
    ensures ReadAll(read, FetchAll(s) + tail, acc) == ReadAll(read, tail, acc + Converted(s))
    decreases |s|
  {
    if s != [] {
      var rows := FetchAll(s) + tail;
      assert rows[0] == Advanced(None, Success(s[0]));
      assert rows[1..] == FetchAll(s[1..]) + tail;
      ReadAllFetched(read, s[1..], tail, acc + [ToImplication(s[0])]);
      assert Converted(s) == [ToImplication(s[0])] + Converted(s[1..]);
      assert acc + [ToImplication(s[0])] + Converted(s[1..]) == acc + Converted(s);
    } else {
      assert FetchAll(s) + tail == tail;
      assert acc + Converted(s) == acc;
    }
  }

  /** A result set of scanned rows is read completely, in order. */
  lemma ReadAllComplete(s: seq<Joined>, acc: seq<Implication>)
    ensures ReadAll(ReadImplication, FetchAll(s), acc) == Success(acc + Converted(s))
    ensures ReadAll(ReadImplicationChecked, FetchAll(s), acc) == Success(acc + Converted(s))
  {
    ReadAllFetched(ReadImplication, s, [], acc);
    ReadAllFetched(ReadImplicationChecked, s, [], acc);
    assert FetchAll(s) + [] == FetchAll(s);
  }

  /** An error after any number of good rows aborts the whole read with
      that error and no partial list. */
  lemma ReadAllAborts(s: seq<Joined>, failure: Fetch, tail: seq<Fetch>, acc: seq<Implication>)
    requires failure.Advanced? && (failure.err.Some? || failure.scanned.Failure?)
    ensures ReadAll(ReadImplication, FetchAll(s) + [failure] + tail, acc)
            == Failure(if failure.err.Some? then failure.err.value else failure.scanned.error)
  {
    ReadAllFetched(ReadImplication, s, [failure] + tail, acc);
    assert FetchAll(s) + [failure] + tail == FetchAll(s) + ([failure] + tail);
  }

  /** As written, an error that stops the iteration is lost: the rows read
      so far come back as a complete, successful listing. */
  lemma ReadAllDropsIterationError(s: seq<Joined>, err: Error, tail: seq<Fetch>, acc: seq<Implication>)
    ensures ReadAll(ReadImplication, FetchAll(s) + [End(Some(err))] + tail, acc) == Success(acc + Converted(s))
  {
    ReadAllFetched(ReadImplication, s, [End(Some(err))] + tail, acc);
    assert FetchAll(s) + [End(Some(err))] + tail == FetchAll(s) + ([End(Some(err))] + tail);
  }

  /** With the error consulted at the end of the iteration, it aborts the
      read like any other error. */
  lemma ReadAllCheckedReportsIterationError(s: seq<Joined>, err: Error, tail: seq<Fetch>, acc: seq<Implication>)
    ensures ReadAll(ReadImplicationChecked, FetchAll(s) + [End(Some(err))] + tail, acc) == Failure(err)
  {
    ReadAllFetched(ReadImplicationChecked, s, [End(Some(err))] + tail, acc);
    assert FetchAll(s) + [End(Some(err))] + tail == FetchAll(s) + ([End(Some(err))] + tail);
  }

  // ---------------------------------------------------------------------
  // The tables.

  /** The implication table with the tag and value tables it is joined
      with. The key of the implication table is its four ids. */
  class Tx {
    const tagNames: map<TagId, string>
    const valueNames: map<ValueId, string>
    var implications: seq<Row>

    ghost predicate Valid()
      reads this
    {
      NoDuplicates(implications)
    }

    constructor (tagNames: map<TagId, string>, valueNames: map<ValueId, string>)
      ensures Valid()
      ensures this.tagNames == tagNames && this.valueNames == valueNames && implications == []
    {
      this.tagNames := tagNames;
      this.valueNames := valueNames;
      implications := [];
    }

    /** The outer join on a value id: None when there is no such value. */
    function ValueFor(id: ValueId): (v: Option<Value>)
      ensures v.None? <==> id !in valueNames
      ensures v.Some? ==> v.value == Value(id, valueNames[id])
    {
      if id in valueNames then Some(Value(id, valueNames[id])) else None
    }

    /** The inner joins on both tag ids: a row whose tag or implied tag has
        no tag row yields nothing. */
    function JoinRow(row: Row): (j: Option<Joined>)
      ensures j.None? <==> row.tagId !in tagNames || row.impliedTagId !in tagNames
      ensures j.Some? ==> j.value.implyingTag == Tag(row.tagId, tagNames[row.tagId])
      ensures j.Some? ==> j.value.impliedTag == Tag(row.impliedTagId, tagNames[row.impliedTagId])
      ensures j.Some? ==> j.value.implyingValue == ValueFor(row.valueId)
      ensures j.Some? ==> j.value.impliedValue == ValueFor(row.impliedValueId)
    {
      if row.tagId in tagNames && row.impliedTagId in tagNames then
        Some(Joined(Tag(row.tagId, tagNames[row.tagId]), ValueFor(row.valueId),
                    Tag(row.impliedTagId, tagNames[row.impliedTagId]), ValueFor(row.impliedValueId)))
      else None
    }

    /** The joined rows in table order. */
    function JoinRows(rows: seq<Row>): (r: seq<Joined>)
      reads this
      ensures forall j :: j in r <==> exists row :: row in rows && JoinRow(row) == Some(j)
      ensures |r| <= |rows|
    {
      if rows == [] then []
      else
        var rest := JoinRows(rows[1..]);
        assert forall row :: row in rows <==> row == rows[0] || row in rows[1..];
        match JoinRow(rows[0])
        case None => rest
        case Some(j) => [j] + rest
    }

    /** What the listing queries return for a set of table rows. */
    function Listing(rows: seq<Row>): seq<Implication>
      reads this
    {
      Converted(SortRows(JoinRows(rows)))
    }

    /** Implications: every row whose tags resolve, ordered by names. */
    method Implications() returns (r: Result<seq<Implication>, Error>)
      ensures r == Success(Listing(implications))
    {
      var listed := SortRows(JoinRows(implications));
      r := ReadImplications(FetchAll(listed), []);
      ReadAllComplete(listed, []);
      assert [] + Converted(listed) == Listing(implications);
    }

    /** The parameters of the WHERE clause: two per pair, tag id then value id. */
    static predicate ParamsFor(params: seq<nat>, pairs: seq<TagValuePair>)
    {
      |params| == 2 * |pairs| &&
      forall i | 0 <= i < |pairs| :: params[2 * i] == pairs[i].tagId && params[2 * i + 1] == pairs[i].valueId
    }

    /** The WHERE clause: (tag_id = ? AND value_id = ?) OR ... over the
        parameters, two at a time. */
    static predicate MatchesParams(row: Row, params: seq<nat>)
    {
      exists i | 0 <= i < |params| / 2 :: row.tagId == params[2 * i] && row.valueId == params[2 * i + 1]
    }

    /** A row whose implying pair is one of `pairs`. */
    static predicate ImpliedByAny(row: Row, pairs: seq<TagValuePair>)
    {
      exists p :: p in pairs && row.tagId == p.tagId && row.valueId == p.valueId
    }

    static lemma MatchesParamsIsAnyPair(row: Row, params: seq<nat>, pairs: seq<TagValuePair>)
      requires ParamsFor(params, pairs)
      ensures MatchesParams(row, params) <==> ImpliedByAny(row, pairs)
    {
      if MatchesParams(row, params) {
        var i :| 0 <= i < |params| / 2 && row.tagId == params[2 * i] && row.valueId == params[2 * i + 1];
        assert pairs[i] in pairs;
      }
      if ImpliedByAny(row, pairs) {
        var p :| p in pairs && row.tagId == p.tagId && row.valueId == p.valueId;
        var i :| 0 <= i < |pairs| && pairs[i] == p;
        assert 2 * i + 1 < |params|;
      }
    }

    /** ImplicationsFor: builds one WHERE condition and two parameters per
        pair. With no pair the WHERE clause is left empty and the engine
        refuses the statement. */
    method ImplicationsFor(pairs: seq<TagValuePair>) returns (r: Result<seq<Implication>, Error>)
      ensures |pairs| == 0 ==> r == Failure(MalformedQuery)
      ensures |pairs| > 0 ==> r == Success(Listing(Filter(implications, (row: Row) => ImpliedByAny(row, pairs))))
    {
      var params := new nat[|pairs| * 2];
      var conditions := 0;
      for index := 0 to |pairs|
        invariant conditions == index
        invariant forall i | 0 <= i < index :: params[2 * i] == pairs[i].tagId && params[2 * i + 1] == pairs[i].valueId
      {
        conditions := conditions + 1;
        params[index * 2] := pairs[index].tagId;
        params[index * 2 + 1] := pairs[index].valueId;
      }
      if conditions == 0 {
        return Failure(MalformedQuery);
      }
      var values := params[..];
      assert ParamsFor(values, pairs);
      var matching := Filter(implications, (row: Row) => MatchesParams(row, values));
      forall row ensures MatchesParams(row, values) <==> ImpliedByAny(row, pairs) {
        MatchesParamsIsAnyPair(row, values, pairs);
      }
      FilterSame(implications, (row: Row) => MatchesParams(row, values), (row: Row) => ImpliedByAny(row, pairs));
      var listed := SortRows(JoinRows(matching));
      r := ReadImplications(FetchAll(listed), []);
      ReadAllComplete(listed, []);
      assert [] + Converted(listed) == Listing(matching);
    }

    /** ImplicationsFor as evidently intended: no pair selects no row. */
    method ImplicationsForAny(pairs: seq<TagValuePair>) returns (r: Result<seq<Implication>, Error>)
      ensures r == Success(Listing(Filter(implications, (row: Row) => ImpliedByAny(row, pairs))))
      ensures |pairs| == 0 ==> r == Success([])
    {
      if |pairs| == 0 {
        FilterNothing(implications, (row: Row) => ImpliedByAny(row, pairs));
        assert Listing([]) == [];
        return Success([]);
      }
      r := ImplicationsFor(pairs);
    }

    /** The listing holds exactly the implications that some row whose
        tags resolve converts to: its tags and resolved values, the zero
        value where a value is missing. */
    lemma ListingContents(rows: seq<Row>, imp: Implication)
      ensures imp in Listing(rows) <==> exists row :: row in rows && JoinRow(row).Some? && ToImplication(JoinRow(row).value) == imp
      ensures |Listing(rows)| == |JoinRows(rows)|
    {
      var joined := JoinRows(rows);
      var sorted := SortRows(joined);
      forall j ensures j in sorted <==> j in joined {
        assert j in multiset(sorted) <==> j in multiset(joined);
      }
      ConvertedMembers(sorted, imp);
      assert |sorted| == |multiset(sorted)| == |multiset(joined)| == |joined|;
    }

    /** AddImplication: INSERT OR IGNORE on the four-id key. */
    method AddImplication(pair: TagValuePair, impliedPair: TagValuePair)
      requires Valid()
      modifies this
      ensures Valid()
      ensures implications == Inserted(old(implications), RowOf(pair, impliedPair))
      ensures RowOf(pair, impliedPair) in old(implications) ==> implications == old(implications)
    {
      var row := RowOf(pair, impliedPair);
      if row !in implications {
        implications := implications + [row];
      }
    }

    /** DeleteImplication: deletes the row with all four ids; no row is a
        NoSuchImplication error. More than one row would break the key and
        the source panics there; under the key that branch is unreachable. */
    method DeleteImplication(pair: TagValuePair, impliedPair: TagValuePair) returns (err: Option<Error>)
      requires Valid()
      modifies this
      ensures Valid()
      ensures RowOf(pair, impliedPair) !in old(implications) ==>
                err == Some(NoSuchImplication(pair, impliedPair)) && implications == old(implications)
      ensures RowOf(pair, impliedPair) in old(implications) ==>
                err == None && implications == Filter(old(implications), (x: Row) => x != RowOf(pair, impliedPair))
    {
      var row := RowOf(pair, impliedPair);
      var rowsAffected := Count(implications, row);
      implications := Filter(implications, (x: Row) => x != row);
      if rowsAffected == 0 {
        FilterNone(old(implications), (x: Row) => x != row);
        return Some(NoSuchImplication(pair, impliedPair));
      }
      if rowsAffected > 1 {
        assert false;
      }
      return None;
    }

    /** DeleteImplicationsByTagId: every row naming the tag on either side. */
    method DeleteImplicationsByTagId(tagId: TagId)
      requires Valid()
      modifies this
      ensures Valid()
      ensures implications == Filter(old(implications), (x: Row) => x.tagId != tagId && x.impliedTagId != tagId)
    {
      implications := Filter(implications, (x: Row) => x.tagId != tagId && x.impliedTagId != tagId);
    }

    /** DeleteImplicationsByValueId: every row naming the value on either side. */
    method DeleteImplicationsByValueId(valueId: ValueId)
      requires Valid()
      modifies this
      ensures Valid()
      ensures implications == Filter(old(implications), (x: Row) => x.valueId != valueId && x.impliedValueId != valueId)
    {
      implications := Filter(implications, (x: Row) => x.valueId != valueId && x.impliedValueId != valueId);
    }
  }

  /** The table after INSERT OR IGNORE of `row`. */
  function Inserted(rows: seq<Row>, row: Row): seq<Row>
  {
    if row in rows then rows else rows + [row]
  }

  lemma {:induction false} CountAppend(rows: seq<Row>, x: Row, row: Row)
    ensures Count(rows + [x], row) == Count(rows, row) + (if x == row then 1 else 0)
  {
    if rows != [] {
      assert (rows + [x])[1..] == rows[1..] + [x];
      CountAppend(rows[1..], x, row);
    } else {
      assert ([] + [x])[1..] == [];
    }
  }

  /** Inserting keeps the four-id key unique and stores the row exactly
      once, however often it is inserted. */
  lemma InsertedKeepsKey(rows: seq<Row>, row: Row)
    requires NoDuplicates(rows)
    ensures NoDuplicates(Inserted(rows, row))
    ensures Count(Inserted(rows, row), row) == 1
    ensures Inserted(Inserted(rows, row), row) == Inserted(rows, row)
    ensures forall x :: x in Inserted(rows, row) <==> x in rows || x == row
  {
    if row !in rows {
      CountAppend(rows, row, row);
    }
  }

  /** A condition no row satisfies selects no row. */
  lemma {:induction false} FilterNothing(rows: seq<Row>, keep: Row -> bool)
    requires forall x :: !keep(x)
    ensures Filter(rows, keep) == []
  {
    if rows != [] {
      FilterNothing(rows[1..], keep);
    }
  }

  lemma FilterSame(rows: seq<Row>, p: Row -> bool, q: Row -> bool)
    requires forall x :: p(x) == q(x)
    ensures Filter(rows, p) == Filter(rows, q)
  {
  }

  lemma FilterNone(rows: seq<Row>, keep: Row -> bool)
    requires forall x :: x in rows ==> keep(x)
    ensures Filter(rows, keep) == rows
  {
  }
}
