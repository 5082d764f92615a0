/**
 * The pieces of Python semantics the test suite relies on: how a call ends
 * (it returns, raises an ordinary Exception, or raises pytest's skip, which
 * derives from BaseException only), byte strings, and the byte-string
 * operations used to craft payloads (slicing with Python's bound rules,
 * `bytes.find` and `n * b"x"`).
 */
module Runtime {

  /** An exception as far as the test suite's handlers can tell them apart. */
  datatype Exc =
    | Error(kind: string, message: string)  // an instance of Exception (NameError, socket errors, ...)
    | Skipped(reason: string)               // pytest.skip's outcome: a BaseException but not an Exception

  /** How a Python call ends. */
  datatype Outcome = Returned | Raised(exc: Exc)

  datatype Option<T> = None | Some(value: T)

  /** A value or the exception raised instead of returning it. */
  datatype Result<T> = Ok(value: T) | Err(exc: Exc)

  /** What `pytest.skip("missing callback")` raises. */
  const MissingCallback: Exc := Skipped("missing callback")

  /** `except Exception:` catches e; a bare `except:` catches everything. */
  predicate IsException(e: Exc) {
    e.Error?
  }

  newtype byte = x: int | 0 <= x < 256

  /** The bytes of an ASCII literal such as b"LaneId=". */
  function Ascii(s: string): (r: seq<byte>)
    ensures |r| == |s|
    ensures forall i :: 0 <= i < |s| ==> r[i] as int == s[i] as int % 256
  {
    seq(|s|, i requires 0 <= i < |s| => (s[i] as int % 256) as byte)
  }

  /** The position a slice bound `i` denotes in a sequence of length n:
      negative bounds count from the end, and the result is clamped to [0, n]. */
  function SliceBound(i: int, n: nat): (k: nat)
    ensures k <= n
    ensures 0 <= i <= n ==> k == i
    ensures i > n ==> k == n
    ensures i < 0 && 0 <= n + i ==> k == n + i
    ensures n + i < 0 ==> k == 0
  {
    if i < 0 then (if n + i < 0 then 0 else n + i) else if i > n then n else i
  }

  /** Python's `s[:i]`. */
  function SliceTo<T>(s: seq<T>, i: int): seq<T> {
    s[..SliceBound(i, |s|)]
  }

  /** Python's `s[i:]`. */
  function SliceFrom<T>(s: seq<T>, i: int): seq<T> {
    s[SliceBound(i, |s|)..]
  }

  /** For every bound i, `s[:i] + s[i:] == s`. */
  lemma SliceSplit<T>(s: seq<T>, i: int)
    ensures SliceTo(s, i) + SliceFrom(s, i) == s
  {
    assert s == s[..SliceBound(i, |s|)] + s[SliceBound(i, |s|)..];
  }

  /** pat occurs in s starting at index j. */
  predicate OccursAt<T(==)>(s: seq<T>, pat: seq<T>, j: int) {
    0 <= j && j + |pat| <= |s| && s[j..j + |pat|] == pat
  }

  /** Python's `s.find(pat)`: the lowest index where pat occurs, or -1. */
  function Find<T(==)>(s: seq<T>, pat: seq<T>): (r: int)
    ensures -1 <= r <= |s|
    ensures r == -1 <==> forall j :: 0 <= j <= |s| ==> !OccursAt(s, pat, j)
    ensures r >= 0 ==> OccursAt(s, pat, r) && forall j :: 0 <= j < r ==> !OccursAt(s, pat, j)
  {
    FindFrom(s, pat, 0)
  }

  /** The lowest index at or after `from` where pat occurs, or -1. */
  function FindFrom<T(==)>(s: seq<T>, pat: seq<T>, from: nat): (r: int)
    requires from <= |s|
    requires forall j :: 0 <= j < from ==> !OccursAt(s, pat, j)
    ensures -1 <= r <= |s|
    ensures r == -1 <==> forall j :: 0 <= j <= |s| ==> !OccursAt(s, pat, j)
    ensures r >= 0 ==> OccursAt(s, pat, r) && forall j :: 0 <= j < r ==> !OccursAt(s, pat, j)
    decreases |s| - from
  {
    if OccursAt(s, pat, from) then from
    else if from == |s| then -1
    else FindFrom(s, pat, from + 1)
  }

  /** Python's `n * b`: n copies of b, and no copies when n <= 0. */
  function Repeat(b: byte, n: int): (r: seq<byte>)
    ensures |r| == if n <= 0 then 0 else n
    ensures forall i :: 0 <= i < |r| ==> r[i] == b
  {
    if n <= 0 then [] else seq(n, _ => b)
  }
}
