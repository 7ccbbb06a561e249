/** Small building blocks shared by every store and view of the model. */
module Common {

  /** An optional value: a nullable or missing field. */
  datatype Option<+T> = None | Some(value: T) {
    /** The held value, or `default` when there is none. */
    function GetOr(default: T): T {
      match this
      case Some(v) => v
      case None => default
    }
  }

  /** What one durable storage key holds when a store starts: nothing, a serialized
      value that parses back to `value` (serialization is the identity here), or
      text that does not parse. */
  datatype Slot<+T> = Absent | Holds(value: T) | Unreadable

  /** The list a store starts with: what its key holds if that parses, else empty. */
  function Restored<T>(initial: Slot<seq<T>>): seq<T> {
    match initial
    case Holds(xs) => xs
    case _ => []
  }

  /** The save effect of a list store: the whole list is written, unless it is empty,
      in which case the key keeps what it held. */
  function Persisted<T>(xs: seq<T>, before: Slot<seq<T>>): (after: Slot<seq<T>>)
    ensures xs != [] ==> Restored(after) == xs
    ensures xs == [] ==> after == before
  {
    if |xs| > 0 then Holds(xs) else before
  }

  /** `a` is `b` with some elements dropped: an order-preserving subsequence. */
  predicate IsSubsequence<T(==)>(a: seq<T>, b: seq<T>)
    decreases |b|
  {
    if a == [] then true
    else if b == [] then false
    else (a[0] == b[0] && IsSubsequence(a[1..], b[1..])) || IsSubsequence(a, b[1..])
  }

  /** Every sequence is a subsequence of itself. */
  lemma {:induction false} SubsequenceOfSelf<T>(s: seq<T>)
    ensures IsSubsequence(s, s)
  {
    if s != [] {
      SubsequenceOfSelf(s[1..]);
    }
  }

  /** The number of elements of `s` that `keep` accepts. */
  function Count<T>(keep: T -> bool, s: seq<T>): (n: nat)
    ensures n <= |s|
  {
    if s == [] then 0 else (if keep(s[0]) then 1 else 0) + Count(keep, s[1..])
  }

  /** `Array.prototype.filter`: the accepted elements, in their original order. */
  function Filter<T(==,!new)>(keep: T -> bool, s: seq<T>): (r: seq<T>)
    ensures |r| == Count(keep, s)
    ensures forall x :: x in r <==> x in s && keep(x)
    ensures IsSubsequence(r, s)
    ensures (forall x :: x in s ==> keep(x)) ==> r == s
  {
    if s == [] then []
    else if keep(s[0]) then [s[0]] + Filter(keep, s[1..])
    else Filter(keep, s[1..])
  }

  /** Every element is either accepted or rejected, so the two counts make up the length. */
  lemma {:induction false} CountSplits<T>(keep: T -> bool, s: seq<T>)
    ensures Count(keep, s) + Count(x => !keep(x), s) == |s|
  {
    if s != [] {
      CountSplits(keep, s[1..]);
    }
  }

  /** Filtering a sequence extended at the back: the old result, extended if the new
      element is accepted. */
  lemma {:induction false} FilterSnoc<T(!new)>(keep: T -> bool, s: seq<T>, x: T)
    ensures Filter(keep, s + [x]) == Filter(keep, s) + (if keep(x) then [x] else [])
  {
    if s == [] {
      assert s + [x] == [x] && [x][1..] == [];
    } else {
      assert (s + [x])[0] == s[0] && (s + [x])[1..] == s[1..] + [x];
      FilterSnoc(keep, s[1..], x);
    }
  }

  /** `Array.prototype.findIndex` as an option: the first position `keep` accepts. */
  function FindFirst<T>(keep: T -> bool, s: seq<T>): (r: Option<nat>)
    ensures r.Some? ==> r.value < |s| && keep(s[r.value]) &&
                        forall k :: 0 <= k < r.value ==> !keep(s[k])
    ensures r.None? ==> forall k :: 0 <= k < |s| ==> !keep(s[k])
  {
    if s == [] then None
    else if keep(s[0]) then Some(0)
    else match FindFirst(keep, s[1..])
         case None => None
         case Some(i) => Some(i + 1)
  }

  /** The distinct values of `s` in the order of their first occurrence: a value is
      appended when it is first met and skipped afterwards. */
  function Dedup<T(==)>(s: seq<T>): seq<T> {
    if s == [] then []
    else
      var d := Dedup(s[..|s| - 1]);
      if s[|s| - 1] in d then d else d + [s[|s| - 1]]
  }

  lemma {:induction false} DedupProperties<T>(s: seq<T>)
    ensures Distinct(Dedup(s))
    ensures forall x :: x in Dedup(s) <==> x in s
  {
    if s != [] {
      var init := s[..|s| - 1];
      DedupProperties(init);
      assert s == init + [s[|s| - 1]];
    }
  }

  /** No two positions of `s` hold the same value. */
  predicate Distinct<T(==)>(s: seq<T>) {
    forall i, j :: 0 <= i < j < |s| ==> s[i] != s[j]
  }

  function Min(a: int, b: int): int { if a <= b then a else b }
}
