/** Small shared vocabulary: optional values, bytes, flattening and slicing of sequences. */
module Common {

  datatype Option<+T> = None | Some(value: T)

  newtype byte = x: int | 0 <= x < 256

  function Min(a: int, b: int): int { if a <= b then a else b }

  function Max(a: int, b: int): int { if a >= b then a else b }

  /** Concatenation of all the pieces, in order. */
  function Flatten<T>(pieces: seq<seq<T>>): seq<T> {
    if pieces == [] then [] else pieces[0] + Flatten(pieces[1..])
  }

  lemma {:induction false} FlattenAppend<T>(a: seq<seq<T>>, b: seq<seq<T>>)
    ensures Flatten(a + b) == Flatten(a) + Flatten(b)
  {
    if a == [] {
      assert a + b == b;
    } else {
      FlattenAppend(a[1..], b);
      assert (a + b)[1..] == a[1..] + b;
      assert Flatten(a + b) == a[0] + Flatten(a[1..] + b);
    }
  }

  lemma FlattenSnoc<T>(a: seq<seq<T>>, x: seq<T>)
    ensures Flatten(a + [x]) == Flatten(a) + x
  {
    FlattenAppend(a, [x]);
    assert Flatten([x]) == x + Flatten<T>([]);
  }

  /** The flattening of pieces i..j sits contiguously in the flattening of all the pieces. */
  lemma FlattenSlice<T>(pieces: seq<seq<T>>, i: nat, j: nat)
    requires i <= j <= |pieces|
    ensures |Flatten(pieces[..i])| + |Flatten(pieces[i..j])| <= |Flatten(pieces)|
    ensures Flatten(pieces[i..j]) ==
            Flatten(pieces)[|Flatten(pieces[..i])|..|Flatten(pieces[..i])| + |Flatten(pieces[i..j])|]
  {
    assert pieces == pieces[..i] + (pieces[i..j] + pieces[j..]);
    FlattenAppend(pieces[..i], pieces[i..j] + pieces[j..]);
    FlattenAppend(pieces[i..j], pieces[j..]);
  }
}
