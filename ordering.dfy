/** The order of the implication listings: ORDER BY tag.name, value.name,
    implied_tag.name, implied_value.name, where a value column is NULL when
    the outer join found no value. Text compares character by character
    (SQLite's BINARY collation on UTF-8 agrees with code point order) and
    NULL sorts before every string. */
module Ordering {
  import opened Wrappers

  /** Three-way comparison of strings: negative, zero or positive. */
  function StrCmp(a: string, b: string): int
  {
    if a == [] && b == [] then 0
    else if a == [] then -1
    else if b == [] then 1
    else if a[0] < b[0] then -1
    else if a[0] > b[0] then 1
    else StrCmp(a[1..], b[1..])
  }

  lemma {:induction false} StrCmpProperties(a: string, b: string)
    ensures StrCmp(b, a) == -StrCmp(a, b)
    ensures StrCmp(a, b) == 0 <==> a == b
    ensures -1 <= StrCmp(a, b) <= 1
  {
    if a != [] && b != [] && a[0] == b[0] {
      StrCmpProperties(a[1..], b[1..]);
      assert a == [a[0]] + a[1..] && b == [b[0]] + b[1..];
    }
  }

  lemma {:induction false} StrCmpTransitive(a: string, b: string, c: string)
    requires StrCmp(a, b) <= 0 && StrCmp(b, c) <= 0
    ensures StrCmp(a, c) <= 0
  {
    if a != [] && b != [] && c != [] && a[0] == b[0] == c[0] {
      StrCmpTransitive(a[1..], b[1..], c[1..]);
    }
  }

  /** A nullable text column: NULL first. */
  function ColumnCmp(a: Option<string>, b: Option<string>): int
  {
    match (a, b)
    case (None, None) => 0
    case (None, Some(_)) => -1
    case (Some(_), None) => 1
    case (Some(x), Some(y)) => StrCmp(x, y)
  }

  lemma ColumnCmpProperties(a: Option<string>, b: Option<string>)
    ensures ColumnCmp(b, a) == -ColumnCmp(a, b)
    ensures ColumnCmp(a, b) == 0 <==> a == b
  {
    if a.Some? && b.Some? {
      StrCmpProperties(a.value, b.value);
    }
  }

  lemma ColumnCmpTransitive(a: Option<string>, b: Option<string>, c: Option<string>)
    requires ColumnCmp(a, b) <= 0 && ColumnCmp(b, c) <= 0
    ensures ColumnCmp(a, c) <= 0
  {
    if a.Some? && b.Some? && c.Some? {
      StrCmpTransitive(a.value, b.value, c.value);
    }
  }

  /** Lexicographic comparison of the ORDER BY columns. */
  function KeyCmp(a: seq<Option<string>>, b: seq<Option<string>>): int
    requires |a| == |b|
  {
    if a == [] then 0
    else
      var c := ColumnCmp(a[0], b[0]);
      if c != 0 then c else KeyCmp(a[1..], b[1..])
  }

  lemma {:induction false} KeyCmpProperties(a: seq<Option<string>>, b: seq<Option<string>>)
    requires |a| == |b|
    ensures KeyCmp(b, a) == -KeyCmp(a, b)
    ensures KeyCmp(a, b) == 0 <==> a == b
  {
    if a != [] {
      ColumnCmpProperties(a[0], b[0]);
      KeyCmpProperties(a[1..], b[1..]);
      assert a == [a[0]] + a[1..] && b == [b[0]] + b[1..];
    }
  }

  lemma {:induction false} KeyCmpTransitive(a: seq<Option<string>>, b: seq<Option<string>>, c: seq<Option<string>>)
    requires |a| == |b| == |c|
    requires KeyCmp(a, b) <= 0 && KeyCmp(b, c) <= 0
    ensures KeyCmp(a, c) <= 0
  {
    if a != [] {
      ColumnCmpProperties(a[0], b[0]);
      ColumnCmpProperties(b[0], c[0]);
      ColumnCmpProperties(a[0], c[0]);
      ColumnCmpTransitive(a[0], b[0], c[0]);
      if ColumnCmp(a[0], b[0]) == 0 && ColumnCmp(b[0], c[0]) == 0 {
        KeyCmpTransitive(a[1..], b[1..], c[1..]);
      }
    }
  }

  /** "a sorts no later than b". */
  predicate KeyLeq(a: seq<Option<string>>, b: seq<Option<string>>)
  {
    |a| == |b| && KeyCmp(a, b) <= 0
  }

  lemma KeyLeqTotal(a: seq<Option<string>>, b: seq<Option<string>>)
    requires |a| == |b|
    ensures KeyLeq(a, b) || KeyLeq(b, a)
  {
    KeyCmpProperties(a, b);
  }

  lemma KeyLeqTransitive(a: seq<Option<string>>, b: seq<Option<string>>, c: seq<Option<string>>)
    requires KeyLeq(a, b) && KeyLeq(b, c)
    ensures KeyLeq(a, c)
  {
    KeyCmpTransitive(a, b, c);
  }
}
