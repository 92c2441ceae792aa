/** The lexicographic order on sequences, from a strict total order on their elements. */
module Order {
  predicate Precedes<T(==)>(a: seq<T>, b: seq<T>, below: (T, T) -> bool) {
    b != [] && (a == [] || below(a[0], b[0]) || (a[0] == b[0] && Precedes(a[1..], b[1..], below)))
  }

  ghost predicate StrictTotal<T(!new)>(below: (T, T) -> bool) {
    && (forall x, y :: below(x, y) ==> !below(y, x))
    && (forall x, y :: !below(x, y) && !below(y, x) ==> x == y)
  }

  lemma {:induction false} PrecedesIsStrictTotal<T(!new)>(a: seq<T>, b: seq<T>, below: (T, T) -> bool)
    requires StrictTotal(below)
    ensures Precedes(a, b, below) ==> !Precedes(b, a, below)
    ensures !Precedes(a, b, below) && !Precedes(b, a, below) ==> a == b
  {
    if a != [] && b != [] && a[0] == b[0] {
      PrecedesIsStrictTotal(a[1..], b[1..], below);
      assert a == [a[0]] + a[1..] && b == [b[0]] + b[1..];
    }
  }

  /** The first difference decides; a proper beginning comes first. */
  lemma {:induction false} PrecedesAt<T(!new)>(a: seq<T>, b: seq<T>, below: (T, T) -> bool, k: nat)
    requires StrictTotal(below)
    requires k <= |a| && k <= |b| && a[..k] == b[..k]
    ensures k < |a| && k < |b| && a[k] != b[k] ==> (Precedes(a, b, below) <==> below(a[k], b[k]))
    ensures k == |a| && k < |b| ==> Precedes(a, b, below)
    ensures k == |b| ==> !Precedes(a, b, below)
  {
    if k > 0 {
      assert a[0] == a[..k][0] == b[..k][0] == b[0];
      assert a[1..][..k - 1] == a[..k][1..] == b[..k][1..] == b[1..][..k - 1];
      PrecedesAt(a[1..], b[1..], below, k - 1);
    }
  }

  /** `at` lists, in order, positions in `whole` of the elements of `part`. */
  ghost predicate Positions<T(!new)>(at: seq<nat>, whole: seq<T>, part: seq<T>) {
    && |at| == |part|
    && (forall i :: 0 <= i < |at| ==> at[i] < |whole| && whole[at[i]] == part[i])
    && (forall i, j :: 0 <= i < j < |at| ==> at[i] < at[j])
  }

  lemma PositionsMore<T(!new)>(at: seq<nat>, whole: seq<T>, part: seq<T>, x: T)
    requires Positions(at, whole, part)
    ensures Positions(at, whole + [x], part)
    ensures Positions(at + [|whole|], whole + [x], part + [x])
  {
  }
}
