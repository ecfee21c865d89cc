/** Datatypes and byte-level types shared by the models of the individual components. */
module Basics {
  datatype Option<+T> = None | Some(value: T)

  datatype Result<+T, +E> = Ok(value: T) | Err(error: E) {
    predicate IsFailure() {
      Err?
    }

    function PropagateFailure<U>(): Result<U, E>
      requires Err?
    {
      Err(error)
    }

    function Extract(): T
      requires Ok?
    {
      value
    }
  }

  newtype byte = x: int | 0 <= x < 256

  type Bytes = seq<byte>

  const HASH_LEN: nat := 32

  /** A BLAKE3-256 digest. */
  type Hash = h: Bytes | |h| == HASH_LEN witness seq(HASH_LEN, _ => 0)

  function Min(a: int, b: int): int { if a <= b then a else b }

  function Max(a: int, b: int): int { if a <= b then b else a }

  /** No two of the given blobs share a digest. */
  ghost predicate CollisionFree(digest: Bytes -> Hash, blobs: set<Bytes>) {
    forall a, b :: a in blobs && b in blobs && digest(a) == digest(b) ==> a == b
  }

  lemma ConcatAssociative<T>(a: seq<T>, b: seq<T>, c: seq<T>)
    ensures a + (b + c) == (a + b) + c
  {
  }

  lemma {:induction false} MaxExists(s: set<nat>)
    requires s != {}
    ensures exists m :: m in s && forall y :: y in s ==> y <= m
  {
    var x :| x in s;
    if s == {x} {
      assert forall y :: y in s ==> y <= x;
    } else {
      var rest := s - {x};
      assert rest != {} by { assert s == rest + {x}; }
      MaxExists(rest);
      var m :| m in rest && forall y :: y in rest ==> y <= m;
      TopOf(s, x, m);
    }
  }

  /** The largest of a set, given the largest of the others. */
  lemma TopOf(s: set<nat>, x: nat, m: nat)
    requires x in s && m in s - {x} && forall y :: y in s - {x} ==> y <= m
    ensures exists top :: top in s && forall y :: y in s ==> y <= top
  {
    var top := if m < x then x else m;
    forall y | y in s ensures y <= top {
      assert y == x || y in s - {x};
    }
    assert top in s;
  }

  function Largest(s: set<nat>): (m: nat)
    requires s != {}
    ensures m in s && forall y :: y in s ==> y <= m
  {
    MaxExists(s);
    var m :| m in s && forall y :: y in s ==> y <= m;
    m
  }
}
