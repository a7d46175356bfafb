/** Small types shared by every component of the proxy model. */
module Foundations {

  datatype Option<+T> = None | Some(value: T)

  datatype Result<+T, +E> = Ok(value: T) | Err(error: E)

  /** Paths, prefixes and rewrite templates are scanned byte by byte. */
  newtype Byte = b: int | 0 <= b < 256
  type Bytes = seq<Byte>

  ghost predicate Distinct<T>(s: seq<T>) {
    forall i, j | 0 <= i < j < |s| :: s[i] != s[j]
  }

  function Elements<T(==)>(s: seq<T>): set<T> {
    set x | x in s
  }

  /** The first element of `s` that `ok` accepts. */
  function FirstOk<T>(s: seq<T>, ok: T -> bool): Option<T> {
    if s == [] then None
    else if ok(s[0]) then Some(s[0])
    else FirstOk(s[1..], ok)
  }

  lemma {:induction false} FirstOkAppend<T>(s: seq<T>, x: T, ok: T -> bool)
    ensures FirstOk(s + [x], ok)
         == if FirstOk(s, ok).Some? then FirstOk(s, ok) else if ok(x) then Some(x) else None
  {
    if s == [] {
      assert s + [x] == [x];
    } else {
      assert (s + [x])[1..] == s[1..] + [x];
      FirstOkAppend(s[1..], x, ok);
    }
  }

  /** It is accepted, and nothing before it is. */
  lemma {:induction false} FirstOkWitness<T>(s: seq<T>, ok: T -> bool)
    ensures FirstOk(s, ok).Some? ==>
              exists k | 0 <= k < |s| :: s[k] == FirstOk(s, ok).value && ok(s[k]) && forall j | 0 <= j < k :: !ok(s[j])
    ensures FirstOk(s, ok).None? ==> forall x | x in s :: !ok(x)
  {
    if s != [] && !ok(s[0]) {
      FirstOkWitness(s[1..], ok);
      if FirstOk(s, ok).Some? {
        var k :| 0 <= k < |s[1..]| && s[1..][k] == FirstOk(s, ok).value && ok(s[1..][k])
                 && forall j | 0 <= j < k :: !ok(s[1..][j]);
        var i := k + 1;
        forall j | 0 <= j < i ensures !ok(s[j]) { if j > 0 { assert s[j] == s[1..][j - 1]; } }
        assert s[i] == FirstOk(s, ok).value && ok(s[i]);
      }
      assert s == [s[0]] + s[1..];
    }
  }

  lemma {:induction false} DistinctFitsIn<T>(s: seq<T>, universe: set<T>)
    requires Distinct(s) && forall x | x in s :: x in universe
    ensures |s| <= |universe|
  {
    if s != [] {
      DistinctFitsIn(s[1..], universe - {s[0]});
    }
  }

  lemma {:induction false} DistinctCardinality<T>(s: seq<T>)
    requires Distinct(s)
    ensures |Elements(s)| == |s|
  {
    if s != [] {
      DistinctCardinality(s[1..]);
      assert Elements(s) == {s[0]} + Elements(s[1..]);
    }
  }
}
