/** Readers that take a value off the front of a sequence of octets, and repetition of them. */
module Parsing {
  import opened Common

  type Bytes = seq<byte>

  /** Running out of octets is told apart from octets that mean nothing. */
  datatype Error = Incomplete | Malformed

  datatype Read<+T> = Ok(value: T, rest: Bytes) | Fail(error: Error)

  /** Read values while more than `stop` octets are left. The readers used here always take at least one octet. */
  function ReadMany<T>(f: Bytes -> Read<T>, s: Bytes, stop: nat): (r: Read<seq<T>>)
    ensures r.Ok? ==> |r.rest| <= |s| && |r.rest| <= stop
    decreases |s|
  {
    if |s| <= stop then Ok([], s)
    else
      match f(s)
      case Fail(e) => Fail(e)
      case Ok(x, more) =>
        if |more| >= |s| then Fail(Malformed)
        else
          match ReadMany(f, more, stop)
          case Fail(e) => Fail(e)
          case Ok(xs, rest) => Ok([x] + xs, rest)
  }

  function PutAll<T>(put: T -> Bytes, xs: seq<T>): Bytes {
    if xs == [] then [] else put(xs[0]) + PutAll(put, xs[1..])
  }

  /** `f` reads what `put` writes for `x`, whatever follows. */
  ghost predicate Inverts<T(!new)>(f: Bytes -> Read<T>, put: T -> Bytes, x: T) {
    forall t :: f(put(x) + t) == Ok(x, t)
  }

  /** Repetition reads back what was written one after the other. */
  lemma {:induction false} ManyBack<T(!new)>(f: Bytes -> Read<T>, put: T -> Bytes, xs: seq<T>, t: Bytes, stop: nat)
    requires |t| <= stop
    requires forall i :: 0 <= i < |xs| ==> Inverts(f, put, xs[i]) && |put(xs[i])| + |t| > stop
    ensures ReadMany(f, PutAll(put, xs) + t, stop) == Ok(xs, t)
    decreases |xs|
  {
    if xs == [] {
      assert PutAll(put, xs) + t == t;
    } else {
      var more := PutAll(put, xs[1..]) + t;
      assert PutAll(put, xs) + t == put(xs[0]) + more;
      assert Inverts(f, put, xs[0]) && |put(xs[0]) + more| > stop && [xs[0]] + xs[1..] == xs;
      ManyBack(f, put, xs[1..], t, stop);
    }
  }

  lemma {:induction false} PutAllConcat<T>(put: T -> Bytes, a: seq<T>, b: seq<T>)
    ensures PutAll(put, a + b) == PutAll(put, a) + PutAll(put, b)
    decreases |a|
  {
    if a == [] {
      assert a + b == b;
    } else {
      assert (a + b)[1..] == a[1..] + b;
      PutAllConcat(put, a[1..], b);
    }
  }
}
