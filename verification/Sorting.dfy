/** In-memory sorting and paging of query results. */
module Sorting {
  import opened ByteOrder
  import opened Documents

  datatype Found = Found(id: Id, doc: Doc)
  datatype Order = Order(field: Field, descending: bool)

  datatype SortValue = SortBool(b: bool) | SortNumber(n: real) | SortText(s: string) | SortOther(s: string) | SortMissing

  function Kind(v: SortValue): nat {
    match v
    case SortBool(_) => 0
    case SortNumber(_) => 1
    case SortText(_) => 2
    case SortOther(_) => 3
    case SortMissing => 4
  }

  function NormalizeSortValue(v: Value): SortValue {
    match v
    case Bool(b) => SortBool(b)
    case NotANumber(_) => SortMissing
    case Num(n, _) => SortNumber(n)
    case Str(s) => SortText(s)
    case Null => SortMissing
    case Other(shown) => SortOther(shown)
  }

  function SortKey(d: Doc, f: Field): SortValue {
    if f in d then NormalizeSortValue(d[f]) else SortMissing
  }

  function CompareText(a: string, b: string): int {
    if Lt(a, b) then -1 else if Lt(b, a) then 1 else 0
  }

  /** `compareSortValues`. */
  function CompareSortValues(a: SortValue, b: SortValue): int {
    if a.SortMissing? && b.SortMissing? then 0
    else if a.SortMissing? then 1
    else if b.SortMissing? then -1
    else if Kind(a) != Kind(b) then (if Kind(a) < Kind(b) then -1 else 1)
    else match a
      case SortBool(x) => if x == b.b then 0 else if !x then -1 else 1
      case SortNumber(x) => if x < b.n then -1 else if x > b.n then 1 else 0
      case SortText(x) => CompareText(x, b.s)
      case SortOther(x) => CompareText(x, b.s)
  }

  /** The less-function handed to the sort. */
  predicate Before(o: Order, x: Found, y: Found) {
    var a, b := SortKey(x.doc, o.field), SortKey(y.doc, o.field);
    var cmp := CompareSortValues(a, b);
    if cmp == 0 then Lt(x.id, y.id)
    else if a.SortMissing? || b.SortMissing? then cmp < 0
    else if o.descending then cmp > 0
    else cmp < 0
  }

  lemma CompareTextTransitive(a: string, b: string, c: string)
    ensures CompareText(a, b) < 0 && CompareText(b, c) < 0 ==> CompareText(a, c) < 0
    ensures CompareText(a, b) == 0 <==> a == b
    ensures CompareText(a, b) == -CompareText(b, a)
  {
    LtTotal(a, b);
    LtIrreflexive(a);
    if Lt(a, b) { LtAsymmetric(a, b); }
    if Lt(a, b) && Lt(b, c) { LtTransitive(a, b, c); }
  }

  lemma CompareAntisymmetric(a: SortValue, b: SortValue)
    ensures CompareSortValues(a, b) == -CompareSortValues(b, a)
    ensures CompareSortValues(a, b) == 0 <==> a == b
  {
    if a.SortText? && b.SortText? { CompareTextTransitive(a.s, b.s, a.s); }
    if a.SortOther? && b.SortOther? { CompareTextTransitive(a.s, b.s, a.s); }
  }

  lemma CompareTransitive(a: SortValue, b: SortValue, c: SortValue)
    requires CompareSortValues(a, b) < 0 && CompareSortValues(b, c) < 0
    ensures CompareSortValues(a, c) < 0
  {
    if a.SortText? && b.SortText? && c.SortText? { CompareTextTransitive(a.s, b.s, c.s); }
    if a.SortOther? && b.SortOther? && c.SortOther? { CompareTextTransitive(a.s, b.s, c.s); }
  }

  /** In both directions the comparator is a strict total order on documents with distinct ids. */
  lemma BeforeIsStrictTotalOrder(o: Order, x: Found, y: Found, z: Found)
    ensures !Before(o, x, x)
    ensures Before(o, x, y) ==> !Before(o, y, x)
    ensures Before(o, x, y) && Before(o, y, z) ==> Before(o, x, z)
    ensures x.id != y.id ==> Before(o, x, y) || Before(o, y, x)
  {
    var a, b, c := SortKey(x.doc, o.field), SortKey(y.doc, o.field), SortKey(z.doc, o.field);
    CompareAntisymmetric(a, b);
    CompareAntisymmetric(b, c);
    CompareAntisymmetric(a, c);
    CompareAntisymmetric(a, a);
    LtIrreflexive(x.id);
    LtTotal(x.id, y.id);
    if Lt(x.id, y.id) { LtAsymmetric(x.id, y.id); }
    if Lt(x.id, y.id) && Lt(y.id, z.id) { LtTransitive(x.id, y.id, z.id); }
    if CompareSortValues(a, b) < 0 && CompareSortValues(b, c) < 0 { CompareTransitive(a, b, c); }
    if CompareSortValues(c, b) < 0 && CompareSortValues(b, a) < 0 { CompareTransitive(c, b, a); }
  }

  /** Documents without a sortable value come last, ascending or descending. */
  lemma MissingComesLast(o: Order, x: Found, y: Found)
    requires !SortKey(x.doc, o.field).SortMissing? && SortKey(y.doc, o.field).SortMissing?
    ensures Before(o, x, y) && !Before(o, y, x)
  {
  }

  ghost predicate SortedBy(o: Order, s: seq<Found>) {
    forall i, j | 0 <= i < j < |s| :: Before(o, s[i], s[j])
  }

  ghost predicate DistinctIds(s: seq<Found>) {
    forall i, j | 0 <= i < j < |s| :: s[i].id != s[j].id
  }

  /** The place of `x` in a sorted list: after everything before it. */
  function Insert(o: Order, x: Found, s: seq<Found>): seq<Found> {
    if s == [] || Before(o, x, s[0]) then [x] + s else [s[0]] + Insert(o, x, s[1..])
  }

  function Sort(o: Order, s: seq<Found>): seq<Found> {
    if s == [] then [] else Insert(o, s[|s| - 1], Sort(o, s[..|s| - 1]))
  }

  lemma {:induction false} InsertSorts(o: Order, x: Found, s: seq<Found>)
    requires SortedBy(o, s) && forall y | y in s :: y.id != x.id
    ensures SortedBy(o, Insert(o, x, s))
    ensures multiset(Insert(o, x, s)) == multiset(s) + multiset{x}
  {
    if s == [] {
    } else if Before(o, x, s[0]) {
      forall j | 0 < j < |s| ensures Before(o, x, s[j]) {
        BeforeIsStrictTotalOrder(o, x, s[0], s[j]);
      }
    } else {
      assert s[0] in s;
      BeforeIsStrictTotalOrder(o, x, s[0], x);
      InsertSorts(o, x, s[1..]);
      assert s == [s[0]] + s[1..];
      var rest := Insert(o, x, s[1..]);
      forall y | y in rest ensures Before(o, s[0], y) {
        assert y in multiset(rest);
        assert y == x || y in s[1..];
      }
    }
  }

  /** Sorting orders its input and neither loses nor invents a document. */
  lemma {:induction false} SortIsSortedPermutation(o: Order, s: seq<Found>)
    requires DistinctIds(s)
    ensures SortedBy(o, Sort(o, s)) && multiset(Sort(o, s)) == multiset(s) && |Sort(o, s)| == |s|
  {
    if s != [] {
      var front, x := s[..|s| - 1], s[|s| - 1];
      assert s == front + [x];
      SortIsSortedPermutation(o, front);
      forall y | y in Sort(o, front) ensures y.id != x.id {
        assert y in multiset(front);
      }
      InsertSorts(o, x, Sort(o, front));
    }
    assert |multiset(Sort(o, s))| == |Sort(o, s)| && |multiset(s)| == |s|;
  }

  /** A sorted list is determined by its documents, so whatever sort the library uses, and in
      whatever order a query path delivers its matches, the outcome is the same. */
  lemma {:induction false} SortedIsUnique(o: Order, a: seq<Found>, b: seq<Found>)
    requires SortedBy(o, a) && SortedBy(o, b) && multiset(a) == multiset(b)
    ensures a == b
  {
    assert |a| == |multiset(a)| == |multiset(b)| == |b|;
    if a != [] {
      SameFirst(o, a, b);
      assert a == [a[0]] + a[1..] && b == [b[0]] + b[1..];
      assert multiset(a) == multiset{a[0]} + multiset(a[1..]);
      assert multiset(b) == multiset{b[0]} + multiset(b[1..]);
      assert multiset(a[1..]) == multiset(a) - multiset{a[0]};
      assert multiset(b[1..]) == multiset(b) - multiset{b[0]};
      SortedIsUnique(o, a[1..], b[1..]);
    }
  }

  lemma SameFirst(o: Order, a: seq<Found>, b: seq<Found>)
    requires SortedBy(o, a) && SortedBy(o, b) && a != [] && b != [] && multiset(a) == multiset(b)
    ensures a[0] == b[0]
  {
    assert a[0] in multiset(b) && b[0] in multiset(a);
    var i :| 0 <= i < |b| && b[i] == a[0];
    var j :| 0 <= j < |a| && a[j] == b[0];
    BeforeIsStrictTotalOrder(o, a[0], b[0], a[0]);
  }

  // ---------------------------------------------------------------- which way a sort runs

  /** The document has nothing to sort by: no such field, `null`, or a number that is none. */
  predicate Unsortable(d: Doc, f: Field) {
    f !in d || d[f].Null? || d[f].NotANumber?
  }

  /** Truth values come before numbers, numbers before text, text before nested values. */
  predicate EarlierKind(v: Value, w: Value) {
    (v.Bool? && (w.Num? || w.Str? || w.Other?)) || (v.Num? && (w.Str? || w.Other?)) || (v.Str? && w.Other?)
  }

  /** The smaller value of one kind: false, the lesser number, the text whose bytes come first. */
  predicate Smaller(v: Value, w: Value) {
    || (v.Bool? && w.Bool? && !v.b && w.b)
    || (v.Num? && w.Num? && v.n < w.n)
    || (v.Str? && w.Str? && Lt(v.s, w.s))
    || (v.Other? && w.Other? && Lt(v.shown, w.shown))
  }

  /** Where one document may stand before another: what cannot be sorted by comes last, in id order;
      otherwise the smaller value first, or last when descending, and equal ones in id order. */
  predicate Stands(o: Order, x: Found, y: Found) {
    if Unsortable(x.doc, o.field) then Unsortable(y.doc, o.field) && Lt(x.id, y.id)
    else if Unsortable(y.doc, o.field) then true
    else
      var v, w := x.doc[o.field], y.doc[o.field];
      if EarlierKind(v, w) || Smaller(v, w) then !o.descending
      else if EarlierKind(w, v) || Smaller(w, v) then o.descending
      else Lt(x.id, y.id)
  }

  lemma BeforeStands(o: Order, x: Found, y: Found)
    requires Before(o, x, y)
    ensures Stands(o, x, y)
  {
    if !Unsortable(x.doc, o.field) && !Unsortable(y.doc, o.field) {
      var v, w := x.doc[o.field], y.doc[o.field];
      if v.Str? && w.Str? { CompareTextTransitive(v.s, w.s, v.s); }
      if v.Other? && w.Other? { CompareTextTransitive(v.shown, w.shown, v.shown); }
    }
  }

  /** A sort runs upwards, or downwards when descending. */
  lemma SortRunsTheRightWay(o: Order, s: seq<Found>, i: nat, j: nat)
    requires DistinctIds(s) && i < j < |Sort(o, s)|
    ensures Stands(o, Sort(o, s)[i], Sort(o, s)[j])
  {
    SortIsSortedPermutation(o, s);
    BeforeStands(o, Sort(o, s)[i], Sort(o, s)[j]);
  }

  /** For numbers: ascending they never fall, descending they never rise, and equal ones stand in id
      order. */
  lemma NumbersAreInOrder(o: Order, s: seq<Found>, i: nat, j: nat)
    requires DistinctIds(s) && i < j < |Sort(o, s)|
    requires o.field in Sort(o, s)[i].doc && o.field in Sort(o, s)[j].doc
    requires Sort(o, s)[i].doc[o.field].Num? && Sort(o, s)[j].doc[o.field].Num?
    ensures var m, n := Sort(o, s)[i].doc[o.field].n, Sort(o, s)[j].doc[o.field].n;
            && (if o.descending then m >= n else m <= n)
            && (m == n ==> Lt(Sort(o, s)[i].id, Sort(o, s)[j].id))
  {
    SortRunsTheRightWay(o, s, i, j);
  }

  // ---------------------------------------------------------------- paging

  function Slice<T>(s: seq<T>, offset: nat, limit: nat): seq<T> {
    var start := if offset > |s| then |s| else offset;
    var end := if start + limit > |s| then |s| else start + limit;
    s[start..end]
  }

  /** `sortAndPageDocuments`: one pass that keys and places each document, then the page. */
  method SortAndPageDocuments(documents: seq<Found>, o: Order, limit: nat, offset: nat) returns (page: seq<Found>)
    ensures page == Slice(Sort(o, documents), offset, limit)
  {
    var sortable := [];
    for i := 0 to |documents|
      invariant sortable == Sort(o, documents[..i])
    {
      assert documents[..i + 1][..i] == documents[..i];
      sortable := Insert(o, documents[i], sortable);
    }
    assert documents[..|documents|] == documents;
    page := Slice(sortable, offset, limit);
  }

  /** The pages from `offset` on, put end to end. */
  function Pages<T>(s: seq<T>, offset: nat, limit: nat): seq<T>
    requires limit > 0
    decreases |s| - offset
  {
    if offset >= |s| then [] else Slice(s, offset, limit) + Pages(s, offset + limit, limit)
  }

  /** Consecutive pages concatenate to the whole list: no gap, no overlap. */
  lemma {:induction false} PagesCoverEverythingOnce<T>(s: seq<T>, offset: nat, limit: nat)
    requires limit > 0 && offset <= |s|
    ensures Pages(s, offset, limit) == s[offset..]
    decreases |s| - offset
  {
    if offset < |s| {
      if offset + limit < |s| {
        PagesCoverEverythingOnce(s, offset + limit, limit);
        assert s[offset..] == s[offset..offset + limit] + s[offset + limit..];
      } else {
        assert Pages(s, offset + limit, limit) == [];
      }
    }
  }
}
