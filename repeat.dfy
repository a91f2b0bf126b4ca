/** A count-prefixed list is decoded by running one element decoder a fixed number of
    times (the loops at main.cpp:270-276, 324-334 and 378-384). This module states that
    loop once, over any element decoder, with the facts every such list shares. */
module Repetition {
  import opened Types

  /** n elements, each decoded from what the previous one left; the first failure ends it. */
  function Repeat<T>(dec: seq<byte> -> Result<Parsed<T>>, s: seq<byte>, n: nat): (r: Result<Parsed<seq<T>>>)
    ensures r.Ok? ==> |r.value.value| == n
    decreases n
  {
    if n == 0 then Ok(Parsed([], s))
    else
      var x :- dec(s);
      var xs :- Repeat(dec, x.rest, n - 1);
      Ok(Parsed([x.value] + xs.value, xs.rest))
  }

  /** One element decoded and the rest of the list after it failing: the whole list fails the same way. */
  lemma RepeatTailFails<T>(dec: seq<byte> -> Result<Parsed<T>>, s: seq<byte>, n: nat, x: T, t: seq<byte>, e: Error)
    requires n > 0 && dec(s) == Ok(Parsed(x, t)) && Repeat(dec, t, n - 1) == Fail(e)
    ensures Repeat(dec, s, n) == Fail(e)
  {
  }

  /** One element decoded and the rest of the list after it decoded: the whole list. */
  lemma RepeatCons<T>(dec: seq<byte> -> Result<Parsed<T>>, s: seq<byte>, n: nat, x: T, t: seq<byte>,
                      xs: seq<T>, u: seq<byte>)
    requires n > 0 && dec(s) == Ok(Parsed(x, t)) && Repeat(dec, t, n - 1) == Ok(Parsed(xs, u))
    ensures Repeat(dec, s, n) == Ok(Parsed([x] + xs, u))
  {
  }

  /** The first n elements of s decode to xs and leave t: the invariant of a decoding loop. */
  ghost predicate Decoded<T>(dec: seq<byte> -> Result<Parsed<T>>, s: seq<byte>, n: nat, xs: seq<T>, t: seq<byte>)
  {
    Repeat(dec, s, n) == Ok(Parsed(xs, t))
  }

  /** Loop step: i elements decoded and one more decodes, so i + 1 elements decode. */
  lemma {:induction false} RepeatSnoc<T>(dec: seq<byte> -> Result<Parsed<T>>, s: seq<byte>, i: nat,
                                         xs: seq<T>, t: seq<byte>, x: T, u: seq<byte>)
    requires Decoded(dec, s, i, xs, t) && dec(t) == Ok(Parsed(x, u))
    ensures Decoded(dec, s, i + 1, xs + [x], u)
    decreases i
  {
    if i == 0 {
      assert [x] + [] == [] + [x];
    } else {
      var first := dec(s).value;
      var more := Repeat(dec, first.rest, i - 1).value;
      RepeatSnoc(dec, first.rest, i - 1, more.value, t, x, u);
      assert [first.value] + (more.value + [x]) == xs + [x];
    }
  }

  /** Decoding n elements of s fails with e. */
  ghost predicate Stopped<T>(dec: seq<byte> -> Result<Parsed<T>>, s: seq<byte>, n: nat, e: Error)
  {
    Repeat(dec, s, n) == Fail(e)
  }

  /** Loop exit: i elements decoded and the next one fails, so the whole list fails with it. */
  lemma {:induction false} RepeatFailAt<T>(dec: seq<byte> -> Result<Parsed<T>>, s: seq<byte>, i: nat, n: nat,
                                           xs: seq<T>, t: seq<byte>)
    requires i < n && Decoded(dec, s, i, xs, t) && dec(t).Fail?
    ensures Stopped(dec, s, n, dec(t).error)
    decreases i
  {
    if i > 0 {
      var first := dec(s).value;
      RepeatFailAt(dec, first.rest, i - 1, n - 1, Repeat(dec, first.rest, i - 1).value.value, t);
    }
  }

  /** Elements that each take exactly w bytes when they decode: n of them take w * n. */
  lemma {:induction false} RepeatAdvances<T>(dec: seq<byte> -> Result<Parsed<T>>, w: nat, s: seq<byte>, n: nat)
    requires forall x :: dec(x).Ok? ==> |x| >= w && dec(x).value.rest == x[w..]
    ensures Repeat(dec, s, n).Ok? ==> |s| >= w * n && Repeat(dec, s, n).value.rest == s[w * n..]
    decreases n
  {
    if n > 0 && dec(s).Ok? {
      var t := dec(s).value.rest;
      assert t == s[w..];
      RepeatAdvances(dec, w, t, n - 1);
      var tail := Repeat(dec, t, n - 1);
      if tail.Ok? {
        var m := MulStep(w, n);
        DropDrop(s, w, m);
        assert Repeat(dec, s, n).value.rest == tail.value.rest;
      }
    }
  }

  /** Elements that fail only when the input runs out: so does the list, at w * n bytes. */
  lemma {:induction false} RepeatReads<T>(dec: seq<byte> -> Result<Parsed<T>>, w: nat, s: seq<byte>, n: nat)
    requires forall x :: Reads(x, dec(x), w)
    ensures Reads(s, Repeat(dec, s, n), w * n)
    decreases n
  {
    if n > 0 {
      assert Reads(s, dec(s), w);
      if dec(s).Ok? {
        var t := dec(s).value.rest;
        RepeatReads(dec, w, t, n - 1);
        var _ := MulStep(w, n);
      }
    }
  }

  /** A property every decoded element has holds of every element of the list. */
  lemma {:induction false} RepeatAll<T>(dec: seq<byte> -> Result<Parsed<T>>, good: T -> bool, s: seq<byte>, n: nat)
    requires forall x :: dec(x).Ok? ==> good(dec(x).value.value)
    ensures Repeat(dec, s, n).Ok? ==> forall i | 0 <= i < n :: good(Repeat(dec, s, n).value.value[i])
    decreases n
  {
    if n > 0 && dec(s).Ok? {
      RepeatAll(dec, good, dec(s).value.rest, n - 1);
    }
  }

  lemma DropDrop(s: seq<byte>, a: nat, b: nat)
    requires a + b <= |s|
    ensures s[a..][b..] == s[a + b..]
  {
  }

  /** w * n as one more w than w * (n - 1), kept apart from the sequence reasoning. */
  lemma MulStep(w: nat, n: nat) returns (m: nat)
    requires n > 0
    ensures m == w * (n - 1) && w * n == w + m
  {
    m := w * (n - 1);
  }
}
