/** The entities the implication engine works on: tags, values and
    implications between tag/value pairs (package tmsu/entities). */
module Entities {

  type TagId = nat
  type ValueId = nat

  datatype Tag = Tag(id: TagId, name: string)

  /** A value; the zero value (id 0, empty name) stands for "no value". */
  datatype Value = Value(id: ValueId, name: string)

  const ZeroValue: Value := Value(0, "")

  datatype TagValuePair = TagValuePair(tagId: TagId, valueId: ValueId)

  type FileId = nat

  /** Errors the storage layer reports: a delete that matched no
      implication, a query text the engine refuses, and a failure to
      retrieve the implications wrapped with that context. */
  datatype Error =
    | NoSuchImplication(pair: TagValuePair, impliedPair: TagValuePair)
    | MalformedQuery
    | ImplicationsUnavailable(cause: Error)

  /** "A file tagged implyingTag[=implyingValue] is also impliedTag[=impliedValue]". */
  datatype Implication = Implication(
    implyingTag: Tag, implyingValue: Value,
    impliedTag: Tag, impliedValue: Value)

  /** The (tag id, value id) pair of the implying side. */
  function ImplyingIds(imp: Implication): (TagId, ValueId)
  {
    (imp.implyingTag.id, imp.implyingValue.id)
  }

  /** The (tag name, value name) pair of the implying side. */
  function ImplyingNames(imp: Implication): (string, string)
  {
    (imp.implyingTag.name, imp.implyingValue.name)
  }

  /** The (tag name, value name) pair of the implied side. */
  function ImpliedNames(imp: Implication): (string, string)
  {
    (imp.impliedTag.name, imp.impliedValue.name)
  }

  /** The implications whose implied side is tagName[=valueName], in
      their original order (Implications.ThatImply). */
  function ThatImply(imps: seq<Implication>, tagName: string, valueName: string): (r: seq<Implication>)
    ensures |r| <= |imps|
    ensures forall imp :: imp in r <==> imp in imps && ImpliedNames(imp) == (tagName, valueName)
  {
    if imps == [] then []
    else
      var rest := ThatImply(imps[1..], tagName, valueName);
      if ImpliedNames(imps[0]) == (tagName, valueName) then [imps[0]] + rest else rest
  }

  /** Filtering a concatenation filters each part and keeps them in order:
      the filter keeps list order and multiplicity. */
  lemma {:induction false} ThatImplyAppend(a: seq<Implication>, b: seq<Implication>, tagName: string, valueName: string)
    ensures ThatImply(a + b, tagName, valueName) == ThatImply(a, tagName, valueName) + ThatImply(b, tagName, valueName)
    decreases |a|
  {
    if a != [] {
      assert (a + b)[1..] == a[1..] + b;
      ThatImplyAppend(a[1..], b, tagName, valueName);
    } else {
      assert a + b == b;
    }
  }

  /** A single implication is kept exactly when its implied side matches. */
  lemma ThatImplyOne(imp: Implication, tagName: string, valueName: string)
    ensures ThatImply([imp], tagName, valueName) == if ImpliedNames(imp) == (tagName, valueName) then [imp] else []
  {
    assert [imp][1..] == [];
  }

  /** True when some implication of the list satisfies the predicate
      (Implications.Any). */
  predicate Any(imps: seq<Implication>, p: Implication -> bool)
  {
    exists i :: 0 <= i < |imps| && p(imps[i])
  }

  /** The set of implying id pairs occurring in a list of implications. */
  function IdPairs(imps: seq<Implication>): set<(TagId, ValueId)>
  {
    set imp | imp in imps :: ImplyingIds(imp)
  }

  /** Any over "same implying (tag id, value id) pair" is exactly
      membership of that pair in IdPairs. */
  lemma AnySameImplyingPair(imps: seq<Implication>, f: Implication)
    ensures Any(imps, imp => ImplyingIds(imp) == ImplyingIds(f)) <==> ImplyingIds(f) in IdPairs(imps)
  {
    if ImplyingIds(f) in IdPairs(imps) {
      var imp :| imp in imps && ImplyingIds(imp) == ImplyingIds(f);
      var i :| 0 <= i < |imps| && imps[i] == imp;
    }
  }
}
