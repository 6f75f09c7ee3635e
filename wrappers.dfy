/** Small helper datatypes shared by the other modules. */
module Wrappers {

  /** A value that may be absent (Python's None, a failed lookup). */
  datatype Option<+T> = None | Some(value: T)
}

/** Generic sequence helpers: the "append what a line yields" loops of the script, as one function. */
module Seqs {
  import opened Wrappers

  /** Apply `f` to every element in order and keep the values it yields. */
  function FilterMap<A, B>(f: A -> Option<B>, xs: seq<A>): seq<B> {
    if xs == [] then []
    else
      match f(xs[0])
      case Some(y) => [y] + FilterMap(f, xs[1..])
      case None => FilterMap(f, xs[1..])
  }

  /** The result keeps the order of the input: two blocks are processed independently and concatenated. */
  lemma {:induction false} FilterMapAppend<A, B>(f: A -> Option<B>, xs: seq<A>, ys: seq<A>)
    ensures FilterMap(f, xs + ys) == FilterMap(f, xs) + FilterMap(f, ys)
    decreases |xs|
  {
    if xs == [] {
      assert xs + ys == ys;
    } else {
      assert (xs + ys)[1..] == xs[1..] + ys;
      FilterMapAppend(f, xs[1..], ys);
    }
  }

  /** Every element for which `f` yields a value contributes that value. */
  lemma {:induction false} FilterMapKeeps<A, B>(f: A -> Option<B>, xs: seq<A>, i: nat)
    requires i < |xs| && f(xs[i]).Some?
    ensures f(xs[i]).value in FilterMap(f, xs)
    decreases i
  {
    if i > 0 {
      assert xs[1..][i - 1] == xs[i];
      FilterMapKeeps(f, xs[1..], i - 1);
    }
  }

  /** Every value of the result comes from some element of the input. */
  lemma {:induction false} FilterMapSource<A, B>(f: A -> Option<B>, xs: seq<A>, y: B) returns (i: nat)
    requires y in FilterMap(f, xs)
    ensures i < |xs| && f(xs[i]) == Some(y)
    decreases |xs|
  {
    if f(xs[0]) == Some(y) {
      i := 0;
    } else {
      var k := FilterMapSource(f, xs[1..], y);
      i := k + 1;
    }
  }

  /** A value is in the result exactly when some element yields it. */
  lemma FilterMapMembers<A, B>(f: A -> Option<B>, xs: seq<A>, y: B)
    ensures y in FilterMap(f, xs) <==> exists i :: 0 <= i < |xs| && f(xs[i]) == Some(y)
  {
    if y in FilterMap(f, xs) {
      var i := FilterMapSource(f, xs, y);
    }
    if exists i :: 0 <= i < |xs| && f(xs[i]) == Some(y) {
      var i :| 0 <= i < |xs| && f(xs[i]) == Some(y);
      FilterMapKeeps(f, xs, i);
    }
  }

  /** One element more at the end: the loop step of a method that builds the result by appending. */
  lemma FilterMapSnoc<A, B>(f: A -> Option<B>, xs: seq<A>, x: A)
    ensures FilterMap(f, xs + [x]) == FilterMap(f, xs) + (if f(x).Some? then [f(x).value] else [])
  {
    FilterMapAppend(f, xs, [x]);
  }

  /**
    * The line loops of the script, `for x in xs: ... out.append(y)`: visit
    * the elements in order and append what each one yields.
    */
  method Collect<A, B>(f: A -> Option<B>, xs: seq<A>) returns (out: seq<B>)
    ensures out == FilterMap(f, xs)
  {
    out := [];
    var i := 0;
    while i < |xs|
      invariant 0 <= i <= |xs|
      invariant out == FilterMap(f, xs[..i])
    {
      var y := f(xs[i]);
      if y.Some? {
        out := out + [y.value];
      }
      assert xs[..i + 1] == xs[..i] + [xs[i]];
      FilterMapSnoc(f, xs[..i], xs[i]);
      i := i + 1;
    }
    assert xs[..i] == xs;
  }

  /** Apply `f`, with the fixed first argument `c`, to every element in order: a loop issuing one command per element. */
  function MapWith<C, A, B>(f: (C, A) -> B, c: C, xs: seq<A>): seq<B> {
    if xs == [] then [] else [f(c, xs[0])] + MapWith(f, c, xs[1..])
  }

  /** `MapWith` keeps the length and applies `f` at every index. */
  lemma {:induction false} MapWithIndex<C, A, B>(f: (C, A) -> B, c: C, xs: seq<A>)
    ensures |MapWith(f, c, xs)| == |xs|
    ensures forall i :: 0 <= i < |xs| ==> MapWith(f, c, xs)[i] == f(c, xs[i])
    decreases |xs|
  {
    if xs != [] {
      MapWithIndex(f, c, xs[1..]);
    }
  }

  /** `MapWith` over two consecutive blocks is the concatenation of the two. */
  lemma {:induction false} MapWithAppend<C, A, B>(f: (C, A) -> B, c: C, xs: seq<A>, ys: seq<A>)
    ensures MapWith(f, c, xs + ys) == MapWith(f, c, xs) + MapWith(f, c, ys)
    decreases |xs|
  {
    if xs == [] {
      assert xs + ys == ys;
    } else {
      assert (xs + ys)[1..] == xs[1..] + ys;
      MapWithAppend(f, c, xs[1..], ys);
    }
  }

  /** One element more at the end of a `MapWith`. */
  lemma MapWithSnoc<C, A, B>(f: (C, A) -> B, c: C, xs: seq<A>, x: A)
    ensures MapWith(f, c, xs + [x]) == MapWith(f, c, xs) + [f(c, x)]
  {
    MapWithAppend(f, c, xs, [x]);
    assert MapWith(f, c, [x]) == [f(c, x)] + MapWith(f, c, []);
  }

  /**
    * Concatenate what `f`, with the fixed first argument `c`, yields for each
    * element in order: a loop issuing zero or more commands per element.
    */
  function FlatMapWith<C, A, B>(f: (C, A) -> seq<B>, c: C, xs: seq<A>): seq<B> {
    if xs == [] then [] else f(c, xs[0]) + FlatMapWith(f, c, xs[1..])
  }

  /** The blocks of two consecutive runs are concatenated. */
  lemma {:induction false} FlatMapWithAppend<C, A, B>(f: (C, A) -> seq<B>, c: C, xs: seq<A>, ys: seq<A>)
    ensures FlatMapWith(f, c, xs + ys) == FlatMapWith(f, c, xs) + FlatMapWith(f, c, ys)
    decreases |xs|
  {
    if xs == [] {
      assert xs + ys == ys;
    } else {
      assert (xs + ys)[1..] == xs[1..] + ys;
      FlatMapWithAppend(f, c, xs[1..], ys);
    }
  }

  /** One element more at the end of a `FlatMapWith`: the loop step. */
  lemma FlatMapWithSnoc<C, A, B>(f: (C, A) -> seq<B>, c: C, xs: seq<A>, x: A)
    ensures FlatMapWith(f, c, xs + [x]) == FlatMapWith(f, c, xs) + f(c, x)
  {
    FlatMapWithAppend(f, c, xs, [x]);
    assert FlatMapWith(f, c, [x]) == f(c, x) + FlatMapWith(f, c, []);
  }

  /** A value is in a `FlatMapWith` exactly when the block of some element holds it. */
  lemma {:induction false} FlatMapWithMembers<C, A, B>(f: (C, A) -> seq<B>, c: C, xs: seq<A>, y: B)
    ensures y in FlatMapWith(f, c, xs) <==> exists i :: 0 <= i < |xs| && y in f(c, xs[i])
    decreases |xs|
  {
    if xs != [] {
      FlatMapWithMembers(f, c, xs[1..], y);
      if exists i :: 1 <= i < |xs| && y in f(c, xs[i]) {
        var i :| 1 <= i < |xs| && y in f(c, xs[i]);
        assert xs[1..][i - 1] == xs[i];
      }
      if exists i :: 0 <= i < |xs[1..]| && y in f(c, xs[1..][i]) {
        var i :| 0 <= i < |xs[1..]| && y in f(c, xs[1..][i]);
        assert xs[1..][i] == xs[i + 1];
      }
    }
  }

  /** Where each of five consecutive blocks sits in their concatenation. */
  lemma FiveBlocks<T>(a: seq<T>, b: seq<T>, c: seq<T>, d: seq<T>, e: seq<T>)
    ensures var p := a + b + c + d + e;
      |p| == |a| + |b| + |c| + |d| + |e| &&
      p[..|a|] == a &&
      (forall k :: 0 <= k < |b| ==> p[|a| + k] == b[k]) &&
      p[|a| + |b|..] == c + d + e
  {
    assert a + b + c + d + e == a + b + (c + d + e);
  }

  /** Appending two blocks one after the other appends their concatenation. */
  lemma AppendTwo<T>(t: seq<T>, a: seq<T>, b: seq<T>)
    ensures t + a + b == t + (a + b)
  {
  }

  /** Appending three blocks one after the other appends their concatenation. */
  lemma AppendThree<T>(t: seq<T>, a: seq<T>, b: seq<T>, c: seq<T>)
    ensures t + a + b + c == t + (a + b + c)
  {
  }

  /** Appending four blocks one after the other appends their concatenation. */
  lemma AppendFour<T>(t: seq<T>, a: seq<T>, b: seq<T>, c: seq<T>, d: seq<T>)
    ensures t + a + b + c + d == t + (a + b + c + d)
  {
  }

  /** Appending five blocks one after the other appends their concatenation. */
  lemma AppendFive<T>(t: seq<T>, a: seq<T>, b: seq<T>, c: seq<T>, d: seq<T>, e: seq<T>)
    ensures t + a + b + c + d + e == t + (a + b + c + d + e)
  {
  }
}
