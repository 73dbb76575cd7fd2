/** Values and sequence helpers shared by every module of the model. */
module Common {

  /** Python's None-or-value results. */
  datatype Option<T> = None | Some(value: T)

  /** The exceptions of the modelled code that escape to the caller. */
  datatype Error =
    | MissingKey(key: string)   // a KeyError on a dictionary lookup that no `try` guards
    | EmptyWayPart(ref: int)    // an IndexError on `node_list[0]` of a way part without nodes

  datatype Result<T> = Ok(value: T) | Err(error: Error)

  /** A planar point: the source's {"x", "y"} dictionaries, (x, y) tuples and [x, y] lists alike. */
  datatype Point = Point(x: real, y: real)

  function Last<T>(s: seq<T>): T
    requires |s| > 0
  {
    s[|s| - 1]
  }

  function Min(a: int, b: int): int
  {
    if a <= b then a else b
  }

  function Max(a: int, b: int): int
  {
    if a <= b then b else a
  }

  /** Python's `list.reverse()` / `reversed(...)` on a sequence. */
  function Reversed<T>(s: seq<T>): (r: seq<T>)
    ensures |r| == |s|
    ensures forall k :: 0 <= k < |s| ==> r[k] == s[|s| - 1 - k]
  {
    if s == [] then [] else Reversed(s[1..]) + [s[0]]
  }

  /** Python's slice `s[i:]` for a non-negative start, which is empty past the end. */
  function Drop<T>(s: seq<T>, i: nat): (r: seq<T>)
  {
    if i <= |s| then s[i..] else []
  }

  /** Python's `lst.pop(len(lst) - 1)`, with the empty list left alone. */
  function DropLast<T>(s: seq<T>): seq<T>
  {
    if s == [] then s else s[..|s| - 1]
  }

  lemma ConcatAssoc<T>(a: seq<T>, b: seq<T>, c: seq<T>)
    ensures (a + b) + c == a + (b + c)
  {
  }

  predicate NoDup<T(==)>(s: seq<T>)
  {
    forall i, j :: 0 <= i < j < |s| ==> s[i] != s[j]
  }

  predicate IsSuffix<T(==)>(s: seq<T>, of: seq<T>)
  {
    |s| <= |of| && s == of[|of| - |s|..]
  }

  /** `a` is `b` with some elements left out, in the same order. */
  predicate IsSubseq<T(==)>(a: seq<T>, b: seq<T>)
    decreases |b|
  {
    if a == [] then true
    else if b == [] then false
    else if a[0] == b[0] then IsSubseq(a[1..], b[1..])
    else IsSubseq(a, b[1..])
  }

  lemma {:induction false} SubseqDropHead<T>(a: seq<T>, b: seq<T>)
    requires a != [] && IsSubseq(a, b)
    ensures IsSubseq(a[1..], b)
    decreases |b|, 0
  {
    if a[0] == b[0] {
      SubseqCons(a[1..], b[1..], b[0]);
      assert [b[0]] + b[1..] == b;
    } else {
      SubseqDropHead(a, b[1..]);
      SubseqCons(a[1..], b[1..], b[0]);
      assert [b[0]] + b[1..] == b;
    }
  }

  /** Putting an element in front of the longer sequence keeps a subsequence. */
  lemma {:induction false} SubseqCons<T>(a: seq<T>, b: seq<T>, x: T)
    requires IsSubseq(a, b)
    ensures IsSubseq(a, [x] + b)
    decreases |b|, 1
  {
    if a != [] && a[0] == x {
      SubseqDropHead(a, b);
      assert ([x] + b)[1..] == b;
    } else if a != [] {
      assert ([x] + b)[1..] == b;
    }
  }

  lemma {:induction false} SubseqLength<T>(a: seq<T>, b: seq<T>)
    requires IsSubseq(a, b)
    ensures |a| <= |b|
    decreases |b|
  {
    if a != [] {
      if a[0] == b[0] {
        SubseqLength(a[1..], b[1..]);
      } else {
        SubseqLength(a, b[1..]);
      }
    }
  }

  lemma SubseqRefl<T>(a: seq<T>)
    ensures IsSubseq(a, a)
  {
  }
}
