/** Vocabulary shared by the call-stack models. */
module Common {

  datatype Option<+T> = None | Some(value: T)

  newtype Byte = x: int | 0 <= x < 0x100

  type Bytes = seq<Byte>

  /** The concatenation of a list of chunks. */
  function Flatten<T>(parts: seq<seq<T>>): seq<T> {
    if parts == [] then [] else parts[0] + Flatten(parts[1..])
  }

  lemma {:induction false} FlattenSnoc<T>(parts: seq<seq<T>>, last: seq<T>)
    ensures Flatten(parts + [last]) == Flatten(parts) + last
  {
    if parts == [] {
      assert parts + [last] == [last];
    } else {
      assert (parts + [last])[1..] == parts[1..] + [last];
      FlattenSnoc(parts[1..], last);
    }
  }

  /** A sequence cut in two: what is behind and what is ahead of a reader. */
  ghost predicate Splits<T>(all: seq<T>, behind: seq<T>, ahead: seq<T>) {
    behind + ahead == all
  }

  lemma SplitMoves<T>(all: seq<T>, behind: seq<T>, part: seq<T>, ahead: seq<T>)
    requires Splits(all, behind, part + ahead)
    ensures Splits(all, behind + part, ahead)
  {
    assert behind + (part + ahead) == (behind + part) + ahead;
  }

  lemma SplitAt<T>(behind: seq<T>, ahead: seq<T>)
    ensures Splits(behind + ahead, behind, ahead)
  {
  }

  lemma SplitGrows<T>(all: seq<T>, behind: seq<T>, ahead: seq<T>, more: seq<T>)
    requires Splits(all, behind, ahead)
    ensures Splits(all + more, behind, ahead + more)
  {
    assert behind + (ahead + more) == (behind + ahead) + more;
  }

  lemma SplitJoins<T>(all: seq<T>, behind: seq<T>, ahead: seq<T>)
    requires Splits(all, behind, ahead)
    ensures behind + ahead == all
  {
  }

  lemma SplitEnds<T>(all: seq<T>, behind: seq<T>)
    requires Splits(all, behind, [])
    ensures behind == all
  {
  }

  lemma SplitStarts<T>(all: seq<T>)
    ensures Splits(all, [], all)
  {
  }

  // ----- division -----

  lemma ProductGrows(a: int, b: int, size: nat)
    requires a < b
    ensures a * size + size <= b * size
  {
    assert b * size == a * size + size + (b - a - 1) * size;
  }

  lemma QuotientIsUnique(n: nat, size: nat, q: int, r: int)
    requires 0 <= r < size && n == q * size + r
    ensures n / size == q && n % size == r
  {
    var q' := n / size;
    assert n == q' * size + n % size;
    if q < q' {
      ProductGrows(q, q', size);
    } else if q' < q {
      ProductGrows(q', q, size);
    }
  }

  lemma ModAbsorbs(a: nat, b: nat, m: nat)
    requires m > 0
    ensures (a % m + b) % m == (a + b) % m
  {
    var q, q' := a / m, (a % m + b) / m;
    assert a == q * m + a % m;
    assert a % m + b == q' * m + (a % m + b) % m;
    assert (q + q') * m == q * m + q' * m;
    QuotientIsUnique(a + b, m, q + q', (a % m + b) % m);
  }
}
