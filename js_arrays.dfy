/**
 * The JavaScript array operations the profile routes use to edit the
 * experience and education lists: `indexOf`, `unshift` and `splice`
 * (sections 22.1.3.11, 22.1.3.28 and 22.1.3.25 of ECMA-262, 6th edition).
 */
module JsArrays {

  /** `s.indexOf(x)`: the first index holding `x`, or -1 when there is none. */
  function IndexOf<T(==)>(s: seq<T>, x: T): (r: int)
    ensures -1 <= r < |s|
    ensures r == -1 <==> x !in s
    ensures r >= 0 ==> s[r] == x && x !in s[..r]
  {
    if s == [] then -1
    else if s[0] == x then 0
    else
      var k := IndexOf(s[1..], x);
      assert s[1..][..k + 1] == s[1..k + 2] || k == -1;
      if k == -1 then -1 else k + 1
  }

  /** `s.unshift(x)` as a value: `x` becomes element 0, the rest shift up. */
  function Unshift<T>(s: seq<T>, x: T): (r: seq<T>)
    ensures |r| == |s| + 1 && r[0] == x && r[1..] == s
  {
    [x] + s
  }

  /** The position `splice` starts at: a negative start counts from the end
      (clamped at 0), a start past the end is clamped to the length. */
  function SpliceStart(len: nat, start: int): (k: nat)
    ensures k <= len
  {
    if start < 0 then (if len + start < 0 then 0 else len + start)
    else if start <= len then start
    else len
  }

  /** How many elements `splice(start, deleteCount)` removes. */
  function SpliceCount(len: nat, start: int, deleteCount: int): (n: nat)
    ensures SpliceStart(len, start) + n <= len
  {
    var k := SpliceStart(len, start);
    if deleteCount < 0 then 0
    else if deleteCount <= len - k then deleteCount
    else len - k
  }

  /** `s` after `s.splice(start, deleteCount)`. */
  function Splice<T>(s: seq<T>, start: int, deleteCount: int): (r: seq<T>)
    ensures |r| == |s| - SpliceCount(|s|, start, deleteCount)
  {
    var k := SpliceStart(|s|, start);
    s[..k] + s[k + SpliceCount(|s|, start, deleteCount)..]
  }

  /** `splice(i, 1)` at a valid index removes exactly element `i` and keeps
      the order of the others. */
  lemma SpliceOneAt<T>(s: seq<T>, i: int)
    requires 0 <= i < |s|
    ensures Splice(s, i, 1) == s[..i] + s[i + 1..]
  {
  }

  /** `splice(-1, 1)` removes the last element, and leaves an empty array
      empty. */
  lemma SpliceMinusOne<T>(s: seq<T>)
    ensures |s| > 0 ==> Splice(s, -1, 1) == s[..|s| - 1]
    ensures |s| == 0 ==> Splice(s, -1, 1) == []
  {
  }

  /** A negative start counts back from the end: `splice(start, 1)` with
      `-|s| <= start < 0` removes element `|s| + start`; a start further
      back than the length is clamped to 0 and removes the first element. */
  lemma SpliceNegativeStart<T>(s: seq<T>, start: int)
    requires start < 0
    ensures -|s| <= start ==> Splice(s, start, 1) == s[..|s| + start] + s[|s| + start + 1..]
    ensures start < -|s| && |s| > 0 ==> Splice(s, start, 1) == s[1..]
  {
  }

  /** Removing element 0 undoes `unshift`. */
  lemma SpliceUndoesUnshift<T>(s: seq<T>, x: T)
    ensures Splice(Unshift(s, x), 0, 1) == s
  {
  }

  /** The array code `s.splice(keys.indexOf(key), 1)` where `keys` lists the
      key of each element of `s`: it removes the first element whose key
      matches; when no key matches, it removes the last element (an empty
      array stays empty). */
  lemma RemoveByKey<T, K>(s: seq<T>, keys: seq<K>, key: K)
    requires |keys| == |s|
    ensures key in keys ==> var i := IndexOf(keys, key);
              Splice(s, i, 1) == s[..i] + s[i + 1..] && key !in keys[..i]
    ensures key !in keys && |s| > 0 ==> Splice(s, IndexOf(keys, key), 1) == s[..|s| - 1]
    ensures key !in keys && |s| == 0 ==> Splice(s, IndexOf(keys, key), 1) == []
  {
    if key in keys {
      SpliceOneAt(s, IndexOf(keys, key));
    } else {
      SpliceMinusOne(s);
    }
  }
}
